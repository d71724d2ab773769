/** The form of canonical texts: which of the many JSON texts of a value is the printed one. */
module CanonicalForm {
  import opened Texts
  import opened Sequences
  import opened Sorting
  import opened CanonicalJson
  import JsonReader

  // ---- objects ----

  /** The keys ascend strictly, code unit by code unit. */
  ghost predicate Ascending(fields: seq<(Text, Value)>) {
    forall i :: 0 <= i < |fields| - 1 ==> Precedes(fields[i].0, fields[i + 1].0)
  }

  /** What is printed for each field: its quoted key, a colon and its value. */
  ghost predicate PrintsFields(fields: seq<(Text, Value)>, texts: seq<Text>) {
    && |texts| == |fields|
    && forall i :: 0 <= i < |fields| ==>
         Valid(fields[i].1) && texts[i] == StringText(fields[i].0) + [0x3A] + Canonical(fields[i].1)
  }

  /** A printed object is the comma-joined list of its fields, in braces, with the keys in
      ascending order whatever order they were given in. */
  lemma ObjectText(fields: seq<(Text, Value)>) returns (arranged: seq<(Text, Value)>, texts: seq<Text>)
    requires Valid(Obj(fields))
    ensures multiset(arranged) == multiset(fields) && Ascending(arranged) && PrintsFields(arranged, texts)
    ensures Canonical(Obj(fields)) == [0x7B] + Join(texts) + [0x7D]
  {
    hide Canonical, StringText, KeyLe, TotalPreorder, Sort, Precedes;
    KeyOrder<Value>();
    arranged := Sort(fields, KeyLe<Value>);
    SortCorrect(fields, KeyLe<Value>);
    SortMembers(fields, KeyLe<Value>);
    assert forall f | f in arranged :: Valid(f.1);
    ArrangedDistinct(fields, arranged);
    ArrangedAscends(arranged);
    texts := FieldTexts(RenderedFields(arranged));
    forall i | 0 <= i < |arranged|
      ensures Valid(arranged[i].1) && texts[i] == StringText(arranged[i].0) + [0x3A] + Canonical(arranged[i].1)
    {
      assert arranged[i] in arranged;
      JsonReader.RenderedFieldAt(arranged, i);
    }
    RenderingSorts(fields, arranged);
    ObjectIs(fields);
  }

  lemma ObjectIs(fields: seq<(Text, Value)>)
    requires Valid(Obj(fields))
    ensures Canonical(Obj(fields)) == [0x7B] + Join(FieldTexts(Sort(RenderedFields(fields), KeyLe<Text>))) + [0x7D]
  {
    hide Join, FieldTexts, Sort, RenderedFields;
  }

  lemma ArrangedDistinct(fields: seq<(Text, Value)>, arranged: seq<(Text, Value)>)
    requires DistinctKeys(fields) && multiset(arranged) == multiset(fields)
    ensures DistinctKeys(arranged)
  {
    var key := (f: (Text, Value)) => f.0;
    MapReorder(fields, arranged, key);
    assert forall i, j :: 0 <= i < j < |fields| ==> Map(fields, key)[i] != Map(fields, key)[j];
    DistinctKept(Map(fields, key), Map(arranged, key));
    assert forall i, j :: 0 <= i < j < |arranged| ==> Map(arranged, key)[i] != Map(arranged, key)[j];
  }

  lemma ArrangedAscends(arranged: seq<(Text, Value)>)
    requires DistinctKeys(arranged) && Sorted(arranged, KeyLe<Value>)
    ensures Ascending(arranged)
  {
    hide Precedes, Le;
    forall i | 0 <= i < |arranged| - 1 ensures Precedes(arranged[i].0, arranged[i + 1].0) {
      assert KeyLe(arranged[i], arranged[i + 1]);
      LeExactly(arranged[i].0, arranged[i + 1].0);
    }
  }

  /** Rendering the arranged fields is arranging the rendered ones. */
  lemma RenderingSorts(fields: seq<(Text, Value)>, arranged: seq<(Text, Value)>)
    requires forall f | f in fields :: Valid(f.1)
    requires DistinctKeys(fields) && multiset(arranged) == multiset(fields)
    requires (forall f | f in arranged :: Valid(f.1)) && Sorted(arranged, KeyLe<Value>)
    ensures RenderedFields(arranged) == Sort(RenderedFields(fields), KeyLe<Text>)
  {
    hide Canonical, Le, TotalPreorder, Sort;
    var render := (f: (Text, Value)) => (f.0, if Valid(f.1) then Canonical(f.1) else []);
    RenderedIsMap(fields, render);
    RenderedIsMap(arranged, render);
    MapReorder(fields, arranged, render);
    KeyOrder<Text>();
    SortCorrect(RenderedFields(fields), KeyLe<Text>);
    TiesAreFields(fields);
    assert Sorted(RenderedFields(arranged), KeyLe<Text>) by {
      forall i, j | 0 <= i < j < |arranged| ensures KeyLe(RenderedFields(arranged)[i], RenderedFields(arranged)[j]) {
        assert KeyLe(arranged[i], arranged[j]);
      }
    }
    SortedUnique(RenderedFields(arranged), Sort(RenderedFields(fields), KeyLe<Text>), KeyLe<Text>) by {
      TiesKept(RenderedFields(fields), RenderedFields(arranged));
    }
  }

  lemma TiesKept(a: seq<(Text, Text)>, b: seq<(Text, Text)>)
    requires multiset(a) == multiset(b) && TiesAreEqual(a, KeyLe<Text>)
    ensures TiesAreEqual(b, KeyLe<Text>)
  {
    hide Le;
    forall x | x in b ensures x in a {
      assert x in multiset(b);
    }
  }

  lemma TiesAreFields(fields: seq<(Text, Value)>)
    requires forall f | f in fields :: Valid(f.1)
    requires DistinctKeys(fields)
    ensures TiesAreEqual(RenderedFields(fields), KeyLe<Text>)
  {
    hide Canonical, Le;
    var r := RenderedFields(fields);
    forall x, y | x in r && y in r && KeyLe(x, y) && KeyLe(y, x) ensures x == y {
      LeAntisymmetric(x.0, y.0);
      var i :| 0 <= i < |r| && r[i] == x;
      var j :| 0 <= j < |r| && r[j] == y;
      assert fields[i].0 == fields[j].0;
    }
  }

  lemma RenderedIsMap(fields: seq<(Text, Value)>, render: ((Text, Value)) -> (Text, Text))
    requires forall f | f in fields :: Valid(f.1)
    requires forall f :: render(f) == (f.0, if Valid(f.1) then Canonical(f.1) else [])
    ensures RenderedFields(fields) == Map(fields, render)
  {
    hide Canonical, Valid;
    forall i | 0 <= i < |fields| ensures RenderedFields(fields)[i] == render(fields[i]) {
      assert fields[i] in fields;
      JsonReader.RenderedFieldAt(fields, i);
    }
  }

  // ---- numbers ----

  /** Either zero is printed as a bare zero. */
  lemma ZeroText(negative: bool)
    ensures NumberText(Zero(negative)) == [0x30]
  {
    assert |Lit("0")| == 1;
  }

  /** A number is printed with an exponent exactly from 1e21 on and below 1e-6; otherwise its
      length is that of its digits, filled up with zeros, and of the point it needs. */
  lemma NumberForm(ds: seq<int>, p: int)
    requires Finite(false, ds, p).Valid()
    ensures var t := NumberText(Finite(false, ds, p));
      && (0x65 in t <==> p > 21 || p < -5)
      && (-5 <= p <= 21 ==>
            |t| == (if p >= |ds| then p else if p > 0 then |ds| + 1 else |ds| - p + 2)
            && (0x2E in t <==> p < |ds|))
      && (p > 21 || p < -5 ==>
            |t| == |ds| + (if |ds| > 1 then 1 else 0) + 2 + |NatText(if p > 0 then p - 1 else 1 - p)|)
  {
    hide NatText;
    var t := DigitText(ds);
    assert forall i :: 0 <= i < |t| ==> IsDigit(t[i]);
    if -5 <= p <= 21 {
      PlainForm(ds, p);
    } else {
      var text := MagnitudeText(ds, p);
      assert text[|text| - |ExponentText(p - 1)|] == 0x65;
    }
  }

  lemma PlainForm(ds: seq<int>, p: int)
    requires Finite(false, ds, p).Valid() && -5 <= p <= 21
    ensures var t := MagnitudeText(ds, p);
      && |t| == (if p >= |ds| then p else if p > 0 then |ds| + 1 else |ds| - p + 2)
      && (0x2E in t <==> p < |ds|) && 0x65 !in t
  {
    var t, text := DigitText(ds), MagnitudeText(ds, p);
    if 0 < p < |ds| {
      assert text[p] == 0x2E;
    } else if p <= 0 {
      assert text[1] == 0x2E;
    }
  }

  // ---- strings ----

  /** A code unit is printed as itself unless it is a quote, a backslash, a control character
      or a surrogate; seven of those have an escape of two units, the others the hexadecimal
      one in lower case. */
  lemma EscapeForm(u: CodeUnit)
    ensures var e := EscapeUnit(u);
      && (e == [u] <==> u >= 0x20 && u != 0x22 && u != 0x5C && !(0xD800 <= u <= 0xDFFF))
      && (|e| == 2 <==> u in {0x22, 0x5C, 0x08, 0x09, 0x0A, 0x0C, 0x0D})
      && (|e| == 1 || |e| == 2 || |e| == 6)
      && (|e| > 1 ==> forall i :: 0 <= i < |e| && u != e[i] ==> !(0x41 <= e[i] <= 0x46))
  {
  }

  /** A surrogate pair is printed as it is, and what follows is printed on its own. */
  lemma PairForm(high: CodeUnit, low: CodeUnit, t: Text)
    requires 0xD800 <= high <= 0xDBFF && 0xDC00 <= low <= 0xDFFF
    ensures StringText([high, low] + t) == [0x22, high, low] + StringText(t)[1..]
  {
    var s := [high, low] + t;
    assert s[..2] == [high, low] && s[2..] == t;
  }

  // ---- numbers in template literals ----

  /** Template literals tell all numbers apart but the two zeros. */
  lemma TemplateTells(a: Number, b: Number)
    requires a.Valid() && b.Valid()
    ensures TemplateText(a) == TemplateText(b) <==> a == b || (a.Zero? && b.Zero?)
  {
    hide TemplateText;
    TemplateStarts(a);
    TemplateStarts(b);
    if a.Finite? && b.Finite? {
      FiniteTold(a, b);
    }
    if a.Zero? && b.Zero? {
      assert TemplateText(a) == [0x30] == TemplateText(b);
    }
  }

  lemma FiniteTold(a: Number, b: Number)
    requires a.Valid() && b.Valid() && a.Finite? && b.Finite?
    ensures TemplateText(a) == TemplateText(b) <==> a == b
  {
    hide NumberText;
    JsonReader.CanonicalExact(Num(a), Num(b));
  }

  lemma TemplateStarts(n: Number)
    requires n.Valid()
    ensures var t := TemplateText(n);
      && t != []
      && (n.NaN? <==> t[0] == 0x4E)
      && (n.Infinite? && !n.negative <==> t[0] == 0x49)
      && (n.Infinite? && n.negative <==> |t| > 1 && t[0] == 0x2D && t[1] == 0x49)
      && (n.Zero? <==> t == [0x30])
  {
    hide MagnitudeText;
    if n.Finite? {
      JsonReader.MagnitudeUnits(n.digits, n.point);
      NotZeroText(n.negative, n.digits, n.point);
    }
  }

  lemma NotZeroText(negative: bool, digits: seq<int>, point: int)
    requires Finite(negative, digits, point).Valid()
    ensures NumberText(Finite(negative, digits, point)) != [0x30]
  {
    hide NumberText;
    assert NumberText(Zero(false)) == [0x30] by { ZeroText(false); }
    if NumberText(Finite(negative, digits, point)) == [0x30] {
      JsonReader.CanonicalExact(Num(Finite(negative, digits, point)), Num(Zero(false)));
      assert false;
    }
  }
}
