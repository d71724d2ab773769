/** A reader for JSON text without white space, and the proof that it reads back
    every canonical text as the value's meaning. */
module JsonReader {
  import opened Texts
  import opened Sequences
  import opened Sorting
  import opened CanonicalJson

  datatype Read<T> = Failed | Got(value: T, rest: Text)

  // ---- numbers ----

  predicate NumberUnit(u: CodeUnit) {
    IsDigit(u) || u == 0x2D || u == 0x2B || u == 0x2E || u == 0x65
  }

  function TakeNumber(t: Text): (r: Text)
    ensures |r| <= |t|
  {
    if t == [] || !NumberUnit(t[0]) then [] else [t[0]] + TakeNumber(t[1..])
  }

  function IndexOf(t: Text, u: CodeUnit): (i: nat)
    ensures i <= |t| && (i < |t| ==> t[i] == u) && forall j :: 0 <= j < i ==> t[j] != u
  {
    if t == [] || t[0] == u then 0 else 1 + IndexOf(t[1..], u)
  }

  function DigitValue(u: CodeUnit): int {
    if IsDigit(u) then u - 0x30 else 0
  }

  function DigitValues(t: Text): (ds: seq<int>)
    ensures |ds| == |t| && forall i :: 0 <= i < |t| ==> ds[i] == DigitValue(t[i])
  {
    seq(|t|, i requires 0 <= i < |t| => DigitValue(t[i]))
  }

  function ReadNat(t: Text): int {
    if t == [] then 0 else 10 * ReadNat(t[..|t| - 1]) + DigitValue(t[|t| - 1])
  }

  function ReadInt(t: Text): int {
    if t == [] then 0
    else if t[0] == 0x2D then -ReadNat(t[1..])
    else if t[0] == 0x2B then ReadNat(t[1..])
    else ReadNat(t)
  }

  /** The number 0.ds * 10^point, without superfluous zeros. */
  function Normal(neg: bool, ds: seq<int>, point: int): Json
    decreases |ds|
  {
    if ds == [] then JZero
    else if ds[0] == 0 then Normal(neg, ds[1..], point - 1)
    else if ds[|ds| - 1] == 0 then Normal(neg, ds[..|ds| - 1], point)
    else JNum(neg, ds, point)
  }

  function ReadMagnitude(neg: bool, t: Text): Json {
    var e := IndexOf(t, 0x65);
    var mantissa := t[..e];
    var exponent := if e < |t| then ReadInt(t[e + 1..]) else 0;
    var dot := IndexOf(mantissa, 0x2E);
    var fraction := if dot < |mantissa| then mantissa[dot + 1..] else [];
    Normal(neg, DigitValues(mantissa[..dot] + fraction), dot + exponent)
  }

  function ReadNumber(t: Text): Json {
    if t != [] && t[0] == 0x2D then ReadMagnitude(true, t[1..]) else ReadMagnitude(false, t)
  }

  // ---- strings ----

  function HexValue(u: CodeUnit): int {
    if IsDigit(u) then u - 0x30 else if 0x61 <= u <= 0x66 then u - 0x57 else 0
  }

  function Unescape(u: CodeUnit): CodeUnit {
    if u == 0x62 then 0x08
    else if u == 0x74 then 0x09
    else if u == 0x6E then 0x0A
    else if u == 0x66 then 0x0C
    else if u == 0x72 then 0x0D
    else u
  }

  function Prepend(u: CodeUnit, r: Read<Text>): Read<Text> {
    match r
    case Failed => Failed
    case Got(x, rest) => Got([u] + x, rest)
  }

  /** Reads up to the closing quote. */
  function ReadChars(t: Text): (r: Read<Text>)
    ensures r.Got? ==> |r.rest| < |t|
  {
    if t == [] then Failed
    else if t[0] == 0x22 then Got([], t[1..])
    else if t[0] != 0x5C then Prepend(t[0], ReadChars(t[1..]))
    else if |t| < 2 then Failed
    else if t[1] != 0x75 then Prepend(Unescape(t[1]), ReadChars(t[2..]))
    else if |t| < 6 then Failed
    else
      Prepend(4096 * HexValue(t[2]) + 256 * HexValue(t[3]) + 16 * HexValue(t[4]) + HexValue(t[5]),
              ReadChars(t[6..]))
  }

  // ---- values ----

  predicate StartsWith(t: Text, p: Text) {
    |p| <= |t| && t[..|p|] == p
  }

  function ReadWord(t: Text, word: Text, meaning: Json): (r: Read<Json>)
    requires |word| > 0
    ensures r.Got? ==> |r.rest| < |t|
  {
    if StartsWith(t, word) then Got(meaning, t[|word|..]) else Failed
  }

  function ReadValue(t: Text): (r: Read<Json>)
    ensures r.Got? ==> |r.rest| < |t|
    decreases |t|, 1
  {
    if t == [] then Failed
    else if t[0] == 0x22 then
      (match ReadChars(t[1..])
       case Failed => Failed
       case Got(x, rest) => Got(JStr(x), rest))
    else if t[0] == 0x5B then
      if |t| > 1 && t[1] == 0x5D then Got(JArr([]), t[2..])
      else
        (match ReadItems(t[1..])
         case Failed => Failed
         case Got(xs, rest) => Got(JArr(xs), rest))
    else if t[0] == 0x7B then
      if |t| > 1 && t[1] == 0x7D then Got(JObj(map[]), t[2..])
      else
        (match ReadFields(t[1..])
         case Failed => Failed
         case Got(m, rest) => Got(JObj(m), rest))
    else if t[0] == 0x6E then ReadWord(t, Lit("null"), JNull)
    else if t[0] == 0x74 then ReadWord(t, Lit("true"), JBool(true))
    else if t[0] == 0x66 then ReadWord(t, Lit("false"), JBool(false))
    else if NumberUnit(t[0]) then Got(ReadNumber(TakeNumber(t)), t[|TakeNumber(t)|..])
    else Failed
  }

  /** Items up to and including the closing bracket. */
  function ReadItems(t: Text): (r: Read<seq<Json>>)
    ensures r.Got? ==> |r.rest| < |t|
    decreases |t|, 2
  {
    match ReadValue(t)
    case Failed => Failed
    case Got(x, rest) =>
      if rest == [] then Failed
      else if rest[0] == 0x5D then Got([x], rest[1..])
      else if rest[0] != 0x2C then Failed
      else
        match ReadItems(rest[1..])
        case Failed => Failed
        case Got(xs, rest') => Got([x] + xs, rest')
  }

  /** Fields up to and including the closing brace; of equal keys the last one stays. */
  function ReadFields(t: Text): (r: Read<map<Text, Json>>)
    ensures r.Got? ==> |r.rest| < |t|
    decreases |t|, 2
  {
    if t == [] || t[0] != 0x22 then Failed
    else
      match ReadChars(t[1..])
      case Failed => Failed
      case Got(k, colon) =>
        if colon == [] || colon[0] != 0x3A then Failed
        else
          match ReadValue(colon[1..])
          case Failed => Failed
          case Got(x, rest) =>
            if rest == [] then Failed
            else if rest[0] == 0x7D then Got(map[k := x], rest[1..])
            else if rest[0] != 0x2C then Failed
            else
              match ReadFields(rest[1..])
              case Failed => Failed
              case Got(m, rest') => Got(map[k := x] + m, rest')
  }

  // ---- every printed part reads back ----

  /** A text after which a number cannot go on. */
  predicate Ends(s: Text) {
    s == [] || !NumberUnit(s[0])
  }

  ghost predicate Reads(t: Text, m: Json) {
    forall s :: Ends(s) ==> ReadValue(t + s) == Got(m, s)
  }

  lemma {:induction false} TakeWhole(t: Text, s: Text)
    requires AllUnits(t)
    requires Ends(s)
    ensures TakeNumber(t + s) == t
  {
    if t != [] {
      assert (t + s)[1..] == t[1..] + s;
      TakeWhole(t[1..], s);
    } else {
      assert t + s == s;
    }
  }

  lemma {:induction false} NatReads(n: nat)
    ensures ReadNat(NatText(n)) == n
  {
    if n >= 10 {
      NatReads(n / 10);
      var t := NatText(n);
      assert t[..|t| - 1] == NatText(n / 10);
    } else {
      assert NatText(n)[..0] == [];
      assert ReadNat([]) == 0;
    }
  }

  lemma ExponentReads(e: int)
    ensures ReadInt(ExponentText(e)[1..]) == e
  {
    var t := ExponentText(e)[1..];
    if e < 0 {
      NatReads(-e);
      assert t[1..] == NatText(-e);
    } else {
      NatReads(e);
      assert t[1..] == NatText(e);
    }
  }

  lemma {:induction false} IndexIs(t: Text, i: nat, u: CodeUnit)
    requires i <= |t| && (i < |t| ==> t[i] == u) && forall j :: 0 <= j < i ==> t[j] != u
    ensures IndexOf(t, u) == i
  {
  }

  /** Leading zeros move the point, trailing zeros change nothing. */
  lemma {:induction false} NormalDrops(neg: bool, a: nat, ds: seq<int>, b: nat, point: int)
    requires |ds| > 0 && ds[0] != 0 && ds[|ds| - 1] != 0
    ensures Normal(neg, seq(a, _ => 0) + ds + seq(b, _ => 0), point) == JNum(neg, ds, point - a)
    decreases a + b
  {
    var all := seq(a, _ => 0) + ds + seq(b, _ => 0);
    if a > 0 {
      assert all[1..] == seq(a - 1, _ => 0) + ds + seq(b, _ => 0);
      NormalDrops(neg, a - 1, ds, b, point - 1);
    } else if b > 0 {
      assert all[..|all| - 1] == seq(a, _ => 0) + ds + seq(b - 1, _ => 0);
      NormalDrops(neg, a, ds, b - 1, point);
    } else {
      assert all == ds;
    }
  }

  predicate AllDigits(t: Text) {
    forall i :: 0 <= i < |t| ==> IsDigit(t[i])
  }

  function Assembled(ip: Text, dotted: bool, fp: Text, scientific: bool, e: int): Text {
    ip + (if dotted then [0x2E] + fp else []) + (if scientific then ExponentText(e) else [])
  }

  lemma PartsRead(neg: bool, ip: Text, dotted: bool, fp: Text, scientific: bool, e: int)
    requires AllDigits(ip) && AllDigits(fp) && (!dotted ==> fp == [])
    ensures ReadMagnitude(neg, Assembled(ip, dotted, fp, scientific, e))
         == Normal(neg, DigitValues(ip + fp), |ip| + if scientific then e else 0)
  {
    hide ReadInt, Normal, ExponentText;
    var mantissa := ip + (if dotted then [0x2E] + fp else []);
    var t := mantissa + (if scientific then ExponentText(e) else []);
    assert scientific ==> ExponentText(e) != [] && ExponentText(e)[0] == 0x65 by {
      ExponentStarts(e);
    }
    IndexIs(t, |mantissa|, 0x65);
    assert t[..|mantissa|] == mantissa;
    if scientific {
      assert t[|mantissa| + 1..] == ExponentText(e)[1..];
      ExponentReads(e);
    }
    MantissaReads(ip, dotted, fp);
  }

  lemma ExponentStarts(e: int)
    ensures |ExponentText(e)| > 2 && ExponentText(e)[0] == 0x65
    ensures AllUnits(ExponentText(e))
  {
  }

  lemma MantissaReads(ip: Text, dotted: bool, fp: Text)
    requires AllDigits(ip) && AllDigits(fp) && (!dotted ==> fp == [])
    ensures var m := ip + (if dotted then [0x2E] + fp else []);
      && IndexOf(m, 0x2E) == |ip|
      && m[..|ip|] + (if |ip| < |m| then m[|ip| + 1..] else []) == ip + fp
  {
    var m := ip + (if dotted then [0x2E] + fp else []);
    IndexIs(m, |ip|, 0x2E);
    assert m[..|ip|] == ip;
    if dotted {
      assert m[|ip| + 1..] == fp;
    }
  }

  /** The digits of a number, printed with `a` zeros in front and `b` behind. */
  lemma PaddedReads(neg: bool, t: Text, a: nat, ds: seq<int>, b: nat, point: int)
    requires Finite(neg, ds, 0).Valid()
    requires t == Zeros(a) + DigitText(ds) + Zeros(b)
    ensures Normal(neg, DigitValues(t), point) == JNum(neg, ds, point - a)
  {
    NormalDrops(neg, a, ds, b, point);
    assert DigitValues(t) == seq(a, _ => 0) + ds + seq(b, _ => 0);
  }

  /** One printed form: the digits `t` cut at `cut`, padded by `a` and `b` zeros. */
  lemma FormReads(neg: bool, ds: seq<int>, ip: Text, dotted: bool, fp: Text, scientific: bool, e: int, a: nat, b: nat)
    requires Finite(neg, ds, 0).Valid()
    requires AllDigits(ip) && AllDigits(fp) && (!dotted ==> fp == [])
    requires ip + fp == Zeros(a) + DigitText(ds) + Zeros(b)
    ensures ReadMagnitude(neg, Assembled(ip, dotted, fp, scientific, e))
         == JNum(neg, ds, |ip| + (if scientific then e else 0) - a)
  {
    hide ReadMagnitude, Normal, Assembled;
    PartsRead(neg, ip, dotted, fp, scientific, e);
    PaddedReads(neg, ip + fp, a, ds, b, |ip| + if scientific then e else 0);
  }

  lemma MagnitudeReads(neg: bool, ds: seq<int>, p: int)
    requires Finite(neg, ds, p).Valid()
    ensures ReadMagnitude(neg, MagnitudeText(ds, p)) == JNum(neg, ds, p)
  {
    hide ReadMagnitude, MagnitudeText;
    if |ds| <= p <= 21 {
      IntegerForm(neg, ds, p);
    } else if 0 < p <= 21 {
      PointForm(neg, ds, p);
    } else if -6 < p <= 0 {
      FractionForm(neg, ds, p);
    } else {
      ScientificForm(neg, ds, p);
    }
  }

  lemma IntegerForm(neg: bool, ds: seq<int>, p: int)
    requires Finite(neg, ds, p).Valid() && |ds| <= p <= 21
    ensures ReadMagnitude(neg, MagnitudeText(ds, p)) == JNum(neg, ds, p)
  {
    hide ReadMagnitude, Normal, ExponentText;
    var whole := DigitText(ds) + Zeros(p - |ds|);
    assert whole + [] == Zeros(0) + DigitText(ds) + Zeros(p - |ds|);
    FormReads(neg, ds, whole, false, [], false, 0, 0, p - |ds|);
    assert MagnitudeText(ds, p) == Assembled(whole, false, [], false, 0);
  }

  lemma PointForm(neg: bool, ds: seq<int>, p: int)
    requires Finite(neg, ds, p).Valid() && 0 < p <= 21 && p < |ds|
    ensures ReadMagnitude(neg, MagnitudeText(ds, p)) == JNum(neg, ds, p)
  {
    hide ReadMagnitude, Normal, ExponentText, DigitText;
    var t := DigitText(ds);
    var ip, fp := t[..p], t[p..];
    assert ip + fp == Zeros(0) + t + Zeros(0);
    FormReads(neg, ds, ip, true, fp, false, 0, 0, 0);
    assert MagnitudeText(ds, p) == ip + [0x2E] + fp == ip + ([0x2E] + fp) + [];
    assert Assembled(ip, true, fp, false, 0) == ip + ([0x2E] + fp) + [];
  }

  lemma ScientificForm(neg: bool, ds: seq<int>, p: int)
    requires Finite(neg, ds, p).Valid() && !(-6 < p <= 21)
    ensures ReadMagnitude(neg, MagnitudeText(ds, p)) == JNum(neg, ds, p)
  {
    hide ReadMagnitude, Normal, ExponentText, DigitText;
    var t := DigitText(ds);
    var ip, fp := t[..1], t[1..];
    assert ip + fp == Zeros(0) + t + Zeros(0);
    FormReads(neg, ds, ip, |ds| > 1, fp, true, p - 1, 0, 0);
    ScientificText(t, ExponentText(p - 1));
  }

  lemma ScientificText(t: Text, e: Text)
    requires t != []
    ensures (if |t| == 1 then t else [t[0], 0x2E] + t[1..]) + e
         == t[..1] + (if |t| > 1 then [0x2E] + t[1..] else []) + e
  {
    if |t| == 1 {
      assert t == t[..1] + [];
    } else {
      assert [t[0], 0x2E] + t[1..] == t[..1] + ([0x2E] + t[1..]);
    }
  }

  lemma FractionForm(neg: bool, ds: seq<int>, p: int)
    requires Finite(neg, ds, p).Valid() && -6 < p <= 0
    ensures ReadMagnitude(neg, MagnitudeText(ds, p)) == JNum(neg, ds, p)
  {
    hide ReadMagnitude, Normal, ExponentText, DigitText;
    var t := DigitText(ds);
    var fraction := Zeros(-p) + t;
    ZeroFirst(-p, t);
    FormReads(neg, ds, [0x30], true, fraction, false, 0, 1 - p, 0);
    FractionText(Zeros(-p), t);
    assert Assembled([0x30], true, fraction, false, 0) == [0x30] + ([0x2E] + fraction) + [];
  }

  lemma FractionText(z: Text, t: Text)
    ensures [0x30, 0x2E] + z + t == [0x30] + ([0x2E] + (z + t)) + []
  {
    assert [0x30, 0x2E] == [0x30] + [0x2E];
  }

  lemma ZeroFirst(n: nat, t: Text)
    ensures [0x30] + (Zeros(n) + t) == Zeros(1 + n) + t + Zeros(0)
  {
  }

  predicate AllUnits(t: Text) {
    forall i :: 0 <= i < |t| ==> NumberUnit(t[i])
  }

  lemma UnitsJoin(a: Text, b: Text)
    requires AllUnits(a) && AllUnits(b)
    ensures AllUnits(a + b)
  {
  }

  lemma MagnitudeUnits(ds: seq<int>, p: int)
    requires Finite(false, ds, p).Valid()
    ensures MagnitudeText(ds, p) != [] && IsDigit(MagnitudeText(ds, p)[0])
    ensures AllUnits(MagnitudeText(ds, p))
  {
    hide ExponentText, DigitText, Zeros;
    var t := DigitText(ds);
    assert AllUnits(t);
    if |ds| <= p <= 21 {
      UnitsJoin(t, Zeros(p - |ds|));
    } else if 0 < p <= 21 {
      UnitsJoin(t[..p], [0x2E]);
      UnitsJoin(t[..p] + [0x2E], t[p..]);
    } else if -6 < p <= 0 {
      UnitsJoin([0x30, 0x2E], Zeros(-p));
      UnitsJoin([0x30, 0x2E] + Zeros(-p), t);
    } else {
      ExponentStarts(p - 1);
      UnitsJoin([t[0], 0x2E], t[1..]);
      UnitsJoin(if |ds| == 1 then t else [t[0], 0x2E] + t[1..], ExponentText(p - 1));
    }
  }

  lemma NumberReads(neg: bool, ds: seq<int>, p: int)
    requires Finite(neg, ds, p).Valid()
    ensures Reads(NumberText(Finite(neg, ds, p)), JNum(neg, ds, p))
  {
    hide MagnitudeText, ReadMagnitude;
    var m, t := MagnitudeText(ds, p), NumberText(Finite(neg, ds, p));
    MagnitudeUnits(ds, p);
    MagnitudeReads(neg, ds, p);
    assert neg ==> t[1..] == m;
    assert !neg ==> t == m;
    assert ReadNumber(t) == JNum(neg, ds, p);
    forall s | Ends(s) ensures ReadValue(t + s) == Got(JNum(neg, ds, p), s) {
      TokenReads(t, s);
    }
  }

  lemma TokenReads(t: Text, s: Text)
    requires t != [] && AllUnits(t) && Ends(s)
    ensures ReadValue(t + s) == Got(ReadNumber(t), s)
  {
    hide ReadNumber;
    TakeWhole(t, s);
    assert (t + s)[0] == t[0];
    assert (t + s)[|t|..] == s;
  }

  // ---- strings ----

  lemma HexReads(u: CodeUnit)
    ensures var h := UnicodeEscape(u);
      4096 * HexValue(h[2]) + 256 * HexValue(h[3]) + 16 * HexValue(h[4]) + HexValue(h[5]) == u
  {
    assert forall d :: 0 <= d < 16 ==> HexValue(HexDigit(d)) == d;
    assert u == 16 * (u / 16) + u % 16;
    assert u / 16 == 16 * (u / 256) + u / 16 % 16;
    assert u / 256 == 16 * (u / 4096) + u / 256 % 16;
  }

  lemma UnitReads(u: CodeUnit, s: Text)
    ensures ReadChars(EscapeUnit(u) + s) == Prepend(u, ReadChars(s))
  {
    var e := EscapeUnit(u);
    assert (e + s)[|e|..] == s;
    if e == UnicodeEscape(u) {
      HexReads(u);
    }
  }

  lemma RawReads(u: CodeUnit, s: Text)
    requires u != 0x22 && u != 0x5C
    ensures ReadChars([u] + s) == Prepend(u, ReadChars(s))
  {
    assert ([u] + s)[1..] == s;
  }

  lemma {:induction false} CharsRead(x: Text, s: Text)
    ensures ReadChars(Escaped(x) + ([0x22] + s)) == Got(x, s)
    decreases |x|
  {
    hide ReadChars, EscapeUnit;
    var tail := [0x22] + s;
    if x == [] {
      QuoteReads(s);
      assert Escaped(x) + tail == tail;
    } else if High(x[0]) && |x| >= 2 && Low(x[1]) {
      var rest := Escaped(x[2..]) + tail;
      CharsRead(x[2..], s);
      RawReads(x[1], rest);
      RawReads(x[0], [x[1]] + rest);
      assert Escaped(x) + tail == [x[0]] + ([x[1]] + rest);
      assert [x[0]] + ([x[1]] + x[2..]) == x;
    } else {
      var rest := Escaped(x[1..]) + tail;
      CharsRead(x[1..], s);
      UnitReads(x[0], rest);
      assert Escaped(x) + tail == EscapeUnit(x[0]) + rest;
      assert [x[0]] + x[1..] == x;
    }
  }

  lemma QuoteReads(s: Text)
    ensures ReadChars([0x22] + s) == Got([], s)
  {
    assert ([0x22] + s)[1..] == s;
  }

  lemma StringReads(x: Text)
    ensures Reads(StringText(x), JStr(x))
  {
    hide ReadChars, Escaped;
    forall s ensures ReadValue(StringText(x) + s) == Got(JStr(x), s) {
      CharsRead(x, s);
      assert (StringText(x) + s)[1..] == Escaped(x) + ([0x22] + s);
    }
  }

  // ---- arrays and objects ----

  lemma ReadsOn(t: Text, m: Json, s: Text)
    requires Reads(t, m) && Ends(s)
    ensures ReadValue(t + s) == Got(m, s)
  {
    hide ReadValue;
  }

  lemma ItemsEnd(t: Text, x: Json, s: Text)
    requires ReadValue(t) == Got(x, [0x5D] + s)
    ensures ReadItems(t) == Got([x], s)
  {
    hide ReadValue;
    assert ([0x5D] + s)[1..] == s;
  }

  lemma ItemsNext(t: Text, x: Json, rest: Text)
    requires ReadValue(t) == Got(x, [0x2C] + rest)
    ensures ReadItems(rest).Got? ==> ReadItems(t) == Got([x] + ReadItems(rest).value, ReadItems(rest).rest)
  {
    hide ReadValue;
    assert ([0x2C] + rest)[1..] == rest;
  }

  lemma {:induction false} ItemsRead(ts: seq<Text>, ms: seq<Json>, s: Text)
    requires |ts| == |ms| > 0
    requires forall i :: 0 <= i < |ts| ==> Reads(ts[i], ms[i])
    ensures ReadItems(Join(ts) + ([0x5D] + s)) == Got(ms, s)
  {
    hide ReadValue, Reads, ReadItems;
    var close := [0x5D] + s;
    ReadsOn(ts[0], ms[0], close);
    if |ts| == 1 {
      ItemsEnd(ts[0] + close, ms[0], s);

      assert ms == [ms[0]];
    } else {
      var rest := Join(ts[1..]) + close;
      ItemsRead(ts[1..], ms[1..], s);
      ReadsOn(ts[0], ms[0], [0x2C] + rest);
      ItemsNext(ts[0] + ([0x2C] + rest), ms[0], rest);
      assert Join(ts) + close == ts[0] + ([0x2C] + rest);
      assert ms == [ms[0]] + ms[1..];
    }
  }

  function KeySet<V(==)>(fs: seq<(Text, V)>): set<Text> {
    set f | f in fs :: f.0
  }

  lemma FieldReads(f: (Text, Text), x: Json, rest: Text)
    requires Reads(f.1, x) && Ends(rest)
    ensures var t := FieldText(f) + rest;
      && t != [] && t[0] == 0x22
      && ReadChars(t[1..]) == Got(f.0, [0x3A] + (f.1 + rest))
      && ReadValue(([0x3A] + (f.1 + rest))[1..]) == Got(x, rest)
  {
    hide ReadValue, ReadChars, Escaped, Reads;
    var t := FieldText(f) + rest;
    CharsRead(f.0, [0x3A] + (f.1 + rest));
    assert t == [0x22] + (Escaped(f.0) + ([0x22] + ([0x3A] + (f.1 + rest))));
    assert t[1..] == Escaped(f.0) + ([0x22] + ([0x3A] + (f.1 + rest)));
    assert ([0x3A] + (f.1 + rest))[1..] == f.1 + rest;
    ReadsOn(f.1, x, rest);
  }

  lemma FieldsEnd(f: (Text, Text), x: Json, s: Text)
    requires Reads(f.1, x)
    ensures ReadFields(FieldText(f) + ([0x7D] + s)) == Got(map[f.0 := x], s)
  {
    hide ReadValue, ReadChars, Reads, FieldText;
    var close := [0x7D] + s;
    FieldReads(f, x, close);
    assert close[1..] == s;
  }

  lemma FieldsNext(f: (Text, Text), x: Json, rest: Text)
    requires Reads(f.1, x)
    ensures ReadFields(rest).Got? ==>
      ReadFields(FieldText(f) + ([0x2C] + rest)) == Got(map[f.0 := x] + ReadFields(rest).value, ReadFields(rest).rest)
  {
    hide ReadValue, ReadChars, Reads, FieldText;
    var comma := [0x2C] + rest;
    FieldReads(f, x, comma);
    assert comma[1..] == rest;
  }

  lemma {:induction false} FieldsRead(fs: seq<(Text, Text)>, m: map<Text, Json>, s: Text)
    requires |fs| > 0
    requires forall f | f in fs :: f.0 in m && Reads(f.1, m[f.0])
    ensures ReadFields(Join(FieldTexts(fs)) + ([0x7D] + s)) == Got(map k | k in KeySet(fs) :: m[k], s)
  {
    hide ReadFields, FieldText, Reads;
    var close, f := [0x7D] + s, fs[0];
    var all := map k | k in KeySet(fs) :: m[k];
    if |fs| == 1 {
      FieldsEnd(f, m[f.0], s);
      assert all == map[f.0 := m[f.0]];
    } else {
      var rest := Join(FieldTexts(fs[1..])) + close;
      FieldsRead(fs[1..], m, s);
      FieldsNext(f, m[f.0], rest);
      assert FieldTexts(fs)[1..] == FieldTexts(fs[1..]);
      assert Join(FieldTexts(fs)) + close == FieldText(f) + ([0x2C] + rest);
      KeysSplit(fs, m);
    }
  }

  lemma KeysSplit(fs: seq<(Text, Text)>, m: map<Text, Json>)
    requires |fs| > 0 && KeySet(fs) <= m.Keys
    ensures KeySet(fs[1..]) <= m.Keys
    ensures (map k | k in KeySet(fs) :: m[k]) == map[fs[0].0 := m[fs[0].0]] + map k | k in KeySet(fs[1..]) :: m[k]
  {
    assert fs == [fs[0]] + fs[1..];
    assert KeySet(fs) == {fs[0].0} + KeySet(fs[1..]);
  }

  // ---- every value reads back ----

  lemma WordReads(word: Text, m: Json)
    requires
      || (word == Lit("null") && m == JNull)
      || (word == Lit("true") && m == JBool(true))
      || (word == Lit("false") && m == JBool(false))
    ensures Reads(word, m)
  {
    forall s ensures ReadValue(word + s) == Got(m, s) {
      assert (word + s)[0] == word[0];
      assert (word + s)[..|word|] == word;
      assert (word + s)[|word|..] == s;
    }
  }

  lemma ZeroReads()
    ensures Reads(Lit("0"), JZero)
  {
    var t := Lit("0");
    assert DigitValues([0x30]) == [0];
    PartsRead(false, [0x30], false, [], false, 0);
    assert Assembled([0x30], false, [], false, 0) == t == [0x30] && [0x30] + [] == [0x30];
    assert Normal(false, [0], 1) == JZero;
    forall s | Ends(s) ensures ReadValue(t + s) == Got(JZero, s) {
      TokenReads(t, s);
    }
  }

  lemma {:induction false} RenderedAt(items: seq<Value>, i: nat)
    requires forall x | x in items :: Valid(x)
    requires i < |items|
    ensures Rendered(items)[i] == Canonical(items[i]) && Meanings(items)[i] == Meaning(items[i])
  {
    if i > 0 {
      RenderedAt(items[1..], i - 1);
    }
  }

  lemma {:induction false} RenderedFieldAt(fields: seq<(Text, Value)>, i: nat)
    requires forall f | f in fields :: Valid(f.1)
    requires i < |fields|
    ensures RenderedFields(fields)[i] == (fields[i].0, Canonical(fields[i].1))
  {
    if i > 0 {
      RenderedFieldAt(fields[1..], i - 1);
    }
  }

  lemma {:induction false} MeaningKeys(fields: seq<(Text, Value)>)
    ensures FieldMeanings(fields).Keys == KeySet(fields)
  {
    if fields != [] {
      MeaningKeys(fields[1..]);
      assert fields == [fields[0]] + fields[1..];
    }
  }

  lemma {:induction false} MeaningAt(fields: seq<(Text, Value)>, i: nat)
    requires DistinctKeys(fields) && i < |fields|
    ensures fields[i].0 in FieldMeanings(fields)
    ensures FieldMeanings(fields)[fields[i].0] == Meaning(fields[i].1)
  {
    if i > 0 {
      MeaningAt(fields[1..], i - 1);
      assert fields[0].0 != fields[i].0;
    }
  }

  /** The canonical text of every value reads back as its meaning, whatever follows. */
  lemma {:induction false} ValueReads(v: Value)
    requires Valid(v)
    ensures Reads(Canonical(v), Meaning(v))
  {
    hide Reads, ReadValue;
    match v
    case Num(NaN) => WordReads(Lit("null"), JNull);
    case Num(Infinite(_)) => WordReads(Lit("null"), JNull);
    case Num(Zero(_)) => ZeroReads();
    case Num(Finite(neg, ds, p)) => NumberReads(neg, ds, p);
    case Undefined => WordReads(Lit("null"), JNull);
    case Null => WordReads(Lit("null"), JNull);
    case Bool(b) => WordReads(Canonical(v), JBool(b));
    case Str(t) => StringReads(t);
    case Arr(items) =>
      forall i | 0 <= i < |items| ensures Reads(Rendered(items)[i], Meanings(items)[i]) {
        ValueReads(items[i]);
        RenderedAt(items, i);
      }
      ArrayReads(Rendered(items), Meanings(items));
    case Obj(fields) =>
      forall i | 0 <= i < |fields| ensures Reads(Canonical(fields[i].1), Meaning(fields[i].1)) {
        assert fields[i].1 < fields[i];
        ValueReads(fields[i].1);
      }
      FieldsReadable(fields);
      SortedReads(RenderedFields(fields), FieldMeanings(fields));
  }

  lemma FieldsReadable(fields: seq<(Text, Value)>)
    requires DistinctKeys(fields) && forall f | f in fields :: Valid(f.1)
    requires forall i | 0 <= i < |fields| :: Reads(Canonical(fields[i].1), Meaning(fields[i].1))
    ensures var fs, m := RenderedFields(fields), FieldMeanings(fields);
      KeySet(fs) == m.Keys && forall f | f in fs :: f.0 in m && Reads(f.1, m[f.0])
  {
    hide Reads, Valid, Canonical, Meaning, RenderedFields, FieldMeanings;
    var fs, m := RenderedFields(fields), FieldMeanings(fields);
    forall f | f in fs ensures f.0 in m && Reads(f.1, m[f.0]) {
      var i :| 0 <= i < |fs| && fs[i] == f;
      RenderedFieldAt(fields, i);
      MeaningAt(fields, i);
    }
    MeaningKeys(fields);
    forall k | k in m.Keys ensures k in KeySet(fs) {
      var i :| 0 <= i < |fields| && fields[i].0 == k;
      assert fs[i].0 == k && fs[i] in fs;
    }
  }

  lemma SortedReads(fs: seq<(Text, Text)>, m: map<Text, Json>)
    requires KeySet(fs) == m.Keys
    requires forall f | f in fs :: f.0 in m && Reads(f.1, m[f.0])
    ensures Reads([0x7B] + Join(FieldTexts(Sort(fs, KeyLe<Text>))) + [0x7D], JObj(m))
  {
    hide Reads;
    KeyOrder<Text>();
    SortMembers(fs, KeyLe<Text>);
    assert KeySet(Sort(fs, KeyLe<Text>)) == KeySet(fs);
    ObjectReads(Sort(fs, KeyLe<Text>), m);
  }

  lemma OpenItems(u: Text)
    requires u != [] && u[0] != 0x5D && ReadItems(u).Got?
    ensures ReadValue([0x5B] + u) == Got(JArr(ReadItems(u).value), ReadItems(u).rest)
  {
    hide ReadItems;
    assert ([0x5B] + u)[1..] == u;
  }

  lemma ArrayReads(ts: seq<Text>, ms: seq<Json>)
    requires |ts| == |ms|
    requires forall i :: 0 <= i < |ts| ==> Reads(ts[i], ms[i])
    ensures Reads([0x5B] + Join(ts) + [0x5D], JArr(ms))
  {
    hide ReadItems, ReadValue;
    var t := [0x5B] + Join(ts) + [0x5D];
    forall s | Ends(s) ensures ReadValue(t + s) == Got(JArr(ms), s) {
      if ts == [] {
        EmptyReads(s);
        assert t + s == [0x5B, 0x5D] + s;
      } else {
        hide Reads;
        var u := Join(ts) + ([0x5D] + s);
        ItemsRead(ts, ms, s);
        BracketNotFirst(ts[0], ms[0]);
        assert u[0] == ts[0][0];
        OpenItems(u);
        assert t + s == [0x5B] + u;
      }
    }
  }

  lemma EmptyReads(s: Text)
    ensures ReadValue([0x5B, 0x5D] + s) == Got(JArr([]), s)
    ensures ReadValue([0x7B, 0x7D] + s) == Got(JObj(map[]), s)
  {
    hide ReadItems, ReadFields;
    assert ([0x5B, 0x5D] + s)[2..] == s;
    assert ([0x7B, 0x7D] + s)[2..] == s;
  }

  lemma BracketNotFirst(t: Text, m: Json)
    requires Reads(t, m)
    ensures t != [] && t[0] != 0x5D
  {
    ReadsOn(t, m, []);
    assert t + [] == t;
  }

  lemma OpenFields(u: Text)
    requires u != [] && u[0] == 0x22 && ReadFields(u).Got?
    ensures ReadValue([0x7B] + u) == Got(JObj(ReadFields(u).value), ReadFields(u).rest)
  {
    hide ReadFields;
    assert ([0x7B] + u)[1..] == u;
  }

  lemma ObjectReads(fs: seq<(Text, Text)>, m: map<Text, Json>)
    requires KeySet(fs) == m.Keys
    requires forall f | f in fs :: f.0 in m && Reads(f.1, m[f.0])
    ensures Reads([0x7B] + Join(FieldTexts(fs)) + [0x7D], JObj(m))
  {
    hide ReadValue;
    forall s | Ends(s)
      ensures ReadValue([0x7B] + Join(FieldTexts(fs)) + [0x7D] + s) == Got(JObj(m), s)
    {
      ObjectReadsBefore(fs, m, s);
    }
  }

  lemma ObjectReadsBefore(fs: seq<(Text, Text)>, m: map<Text, Json>, s: Text)
    requires KeySet(fs) == m.Keys
    requires forall f | f in fs :: f.0 in m && Reads(f.1, m[f.0])
    ensures ReadValue([0x7B] + Join(FieldTexts(fs)) + [0x7D] + s) == Got(JObj(m), s)
  {
    hide ReadFields, ReadValue, Reads;
    var fields := Join(FieldTexts(fs));
    if fs == [] {
      EmptyReads(s);
      assert [0x7B] + fields + [0x7D] + s == [0x7B, 0x7D] + s;
      assert m == map[];
    } else {
      hide KeySet, FieldTexts;
      var u := fields + ([0x7D] + s);
      FieldsRead(fs, m, s);
      assert (map k | k in KeySet(fs) :: m[k]) == m;
      assert FieldText(fs[0])[0] == 0x22;
      assert u[0] == 0x22;
      OpenFields(u);
      assert [0x7B] + fields + [0x7D] + s == [0x7B] + u;
    }
  }

  /** Reading the canonical text of a value gives what the value means. */
  lemma RoundTrip(v: Value)
    requires Valid(v)
    ensures ReadValue(Canonical(v)) == Got(Meaning(v), [])
  {
    hide ReadValue;
    ValueReads(v);
    ReadsOn(Canonical(v), Meaning(v), []);
    assert Canonical(v) + [] == Canonical(v);
  }

  // ---- values that mean the same print alike ----

  /** Sorting by key forgets the order in which the fields came. */
  lemma SortedAlike(a: seq<(Text, Text)>, b: seq<(Text, Text)>)
    requires DistinctKeys(a) && DistinctKeys(b)
    requires forall x :: x in a <==> x in b
    ensures Sort(a, KeyLe<Text>) == Sort(b, KeyLe<Text>)
  {
    KeyOrder<Text>();
    SameMembers(a, b);
    forall x, y | x in a && y in a && KeyLe(x, y) && KeyLe(y, x) ensures x == y {
      LeAntisymmetric(x.0, y.0);
    }
    assert TiesAreEqual(a, KeyLe<Text>);
    SortInvariant(a, b, KeyLe<Text>);
  }

  lemma {:induction false} PrintAlike(v: Value, w: Value)
    requires Valid(v) && Valid(w) && Meaning(v) == Meaning(w)
    ensures Canonical(v) == Canonical(w)
    decreases v, 1
  {
    if v.Arr? {
      var a, b := v.items, w.items;
      assert |a| == |Meanings(a)| == |b|;
      forall i | 0 <= i < |a| ensures Rendered(a)[i] == Rendered(b)[i] {
        RenderedAt(a, i);
        RenderedAt(b, i);
        PrintAlike(a[i], b[i]);
      }
      assert Rendered(a) == Rendered(b);
    } else if v.Obj? {
      var a, b := v.fields, w.fields;
      MeaningKeys(a);
      MeaningKeys(b);
      FieldsAlike(v, w);
      forall x ensures x in RenderedFields(a) <==> x in RenderedFields(b) {
        SharedField(a, b, x);
        SharedField(b, a, x);
      }
      SortedAlike(RenderedFields(a), RenderedFields(b));
    }
  }

  ghost predicate AlikeAt(a: seq<(Text, Value)>, b: seq<(Text, Value)>)
    requires forall f | f in a :: Valid(f.1)
    requires forall f | f in b :: Valid(f.1)
  {
    forall i, j :: 0 <= i < |a| && 0 <= j < |b| && a[i].0 == b[j].0 ==> RenderedFields(a)[i] == RenderedFields(b)[j]
  }

  lemma SharedField(a: seq<(Text, Value)>, b: seq<(Text, Value)>, x: (Text, Text))
    requires forall f | f in a :: Valid(f.1)
    requires forall f | f in b :: Valid(f.1)
    requires FieldMeanings(a).Keys == FieldMeanings(b).Keys && AlikeAt(a, b)
    ensures x in RenderedFields(a) ==> x in RenderedFields(b)
  {
    hide Valid, RenderedFields, FieldMeanings;
    MeaningKeys(a);
    MeaningKeys(b);
    if x in RenderedFields(a) {
      var i :| 0 <= i < |a| && RenderedFields(a)[i] == x;
      assert a[i] in a;
      assert a[i].0 in KeySet(a) && KeySet(a) == KeySet(b);
      var f :| f in b && f.0 == a[i].0;
      var j :| 0 <= j < |b| && b[j] == f;
      assert RenderedFields(b)[j] == x;
    }
  }

  lemma {:induction false} FieldsAlike(v: Value, w: Value)
    requires Valid(v) && Valid(w) && Meaning(v) == Meaning(w) && v.Obj? && w.Obj?
    ensures AlikeAt(v.fields, w.fields) && AlikeAt(w.fields, v.fields)
    decreases v, 0
  {
    var a, b := v.fields, w.fields;
    forall i, j | 0 <= i < |a| && 0 <= j < |b| && a[i].0 == b[j].0
      ensures RenderedFields(a)[i] == RenderedFields(b)[j]
    {
      RenderedFieldAt(a, i);
      RenderedFieldAt(b, j);
      MeaningAt(a, i);
      MeaningAt(b, j);
      assert a[i].1 < a[i];
      PrintAlike(a[i].1, b[j].1);
    }
  }

  /** Two values have the same canonical text exactly when they mean the same JSON. */
  lemma CanonicalExact(v: Value, w: Value)
    requires Valid(v) && Valid(w)
    ensures Canonical(v) == Canonical(w) <==> Meaning(v) == Meaning(w)
  {
    if Canonical(v) == Canonical(w) {
      RoundTrip(v);
      RoundTrip(w);
    }
    if Meaning(v) == Meaning(w) {
      PrintAlike(v, w);
    }
  }
}
