/** The canonical JSON text of a value, read back by a parser of the JSON grammar
    (RFC 8259, sections 4 to 7, without optional white space). Two values print
    alike exactly when they mean the same JSON. */
module CanonicalJson {
  import opened Texts
  import opened Sorting

  /** A finite number other than zero, by its shortest decimal: the digits have
      neither leading nor trailing zeros, and the value is 0.digits * 10^point. */
  datatype Number =
    | NaN
    | Infinite(negative: bool)
    | Zero(negative: bool)
    | Finite(negative: bool, digits: seq<int>, point: int)
  {
    predicate Valid() {
      Finite? ==>
        && |digits| > 0
        && (forall i :: 0 <= i < |digits| ==> 0 <= digits[i] <= 9)
        && digits[0] != 0
        && digits[|digits| - 1] != 0
    }
  }

  /** A value as the program holds it; fields are in insertion order. */
  datatype Value =
    | Undefined
    | Null
    | Bool(b: bool)
    | Num(n: Number)
    | Str(t: Text)
    | Arr(items: seq<Value>)
    | Obj(fields: seq<(Text, Value)>)

  /** A JSON document; objects are finite maps. */
  datatype Json =
    | JNull
    | JBool(b: bool)
    | JZero
    | JNum(negative: bool, digits: seq<int>, point: int)
    | JStr(t: Text)
    | JArr(items: seq<Json>)
    | JObj(fields: map<Text, Json>)

  predicate DistinctKeys<V>(fields: seq<(Text, V)>) {
    forall i, j :: 0 <= i < j < |fields| ==> fields[i].0 != fields[j].0
  }

  /** What the language guarantees of every value: one field per key. */
  predicate Valid(v: Value) {
    match v
    case Num(n) => n.Valid()
    case Arr(items) => forall x | x in items :: Valid(x)
    case Obj(fields) => DistinctKeys(fields) && forall f | f in fields :: Valid(f.1)
    case _ => true
  }

  /** What a value means as JSON: key order is forgotten, numbers JSON cannot
      express become null, and the sign of zero is lost. */
  function Meaning(v: Value): Json {
    match v
    case Undefined => JNull
    case Null => JNull
    case Bool(b) => JBool(b)
    case Num(n) =>
      (match n
       case NaN => JNull
       case Infinite(_) => JNull
       case Zero(_) => JZero
       case Finite(neg, ds, p) => JNum(neg, ds, p))
    case Str(t) => JStr(t)
    case Arr(items) => JArr(Meanings(items))
    case Obj(fields) => JObj(FieldMeanings(fields))
  }

  function Meanings(items: seq<Value>): (r: seq<Json>)
    ensures |r| == |items|
  {
    if items == [] then [] else [Meaning(items[0])] + Meanings(items[1..])
  }

  function FieldMeanings(fields: seq<(Text, Value)>): map<Text, Json> {
    if fields == [] then map[]
    else
      var f := fields[0];
      assert f.1 < f;
      FieldMeanings(fields[1..])[f.0 := Meaning(f.1)]
  }

  // ---- printing ----

  function Zeros(n: nat): (t: Text)
    ensures |t| == n && forall i :: 0 <= i < n ==> t[i] == 0x30
  {
    seq(n, _ => 0x30)
  }

  function DigitText(ds: seq<int>): (t: Text)
    requires forall i :: 0 <= i < |ds| ==> 0 <= ds[i] <= 9
    ensures |t| == |ds| && forall i :: 0 <= i < |ds| ==> t[i] == 0x30 + ds[i]
  {
    seq(|ds|, i requires 0 <= i < |ds| => 0x30 + ds[i])
  }

  function ExponentText(e: int): Text {
    if e < 0 then [0x65, 0x2D] + NatText(-e) else [0x65, 0x2B] + NatText(e)
  }

  /** Number::toString of ECMA-262, section 6.1.6.1.20, for a positive number. */
  function MagnitudeText(ds: seq<int>, p: int): Text
    requires Finite(false, ds, p).Valid()
  {
    var t := DigitText(ds);
    if |ds| <= p <= 21 then t + Zeros(p - |ds|)
    else if 0 < p <= 21 then t[..p] + [0x2E] + t[p..]
    else if -6 < p <= 0 then [0x30, 0x2E] + Zeros(-p) + t
    else (if |ds| == 1 then t else [t[0], 0x2E] + t[1..]) + ExponentText(p - 1)
  }

  function NumberText(n: Number): Text
    requires n.Valid()
  {
    match n
    case NaN => Lit("null")
    case Infinite(_) => Lit("null")
    case Zero(_) => Lit("0")
    case Finite(neg, ds, p) => (if neg then [0x2D] else []) + MagnitudeText(ds, p)
  }

  /** What a template literal prints: unlike JSON it spells out what is not finite. */
  function TemplateText(n: Number): Text
    requires n.Valid()
  {
    match n
    case NaN => Lit("NaN")
    case Infinite(neg) => if neg then Lit("-Infinity") else Lit("Infinity")
    case _ => NumberText(n)
  }

  predicate High(u: CodeUnit) { 0xD800 <= u <= 0xDBFF }
  predicate Low(u: CodeUnit) { 0xDC00 <= u <= 0xDFFF }

  function HexDigit(d: int): CodeUnit
    requires 0 <= d < 16
  {
    if d < 10 then 0x30 + d else 0x57 + d
  }

  function UnicodeEscape(u: CodeUnit): Text {
    [0x5C, 0x75, HexDigit(u / 4096), HexDigit(u / 256 % 16), HexDigit(u / 16 % 16), HexDigit(u % 16)]
  }

  function EscapeUnit(u: CodeUnit): Text {
    if u == 0x22 || u == 0x5C then [0x5C, u]
    else if u == 0x08 then [0x5C, 0x62]
    else if u == 0x09 then [0x5C, 0x74]
    else if u == 0x0A then [0x5C, 0x6E]
    else if u == 0x0C then [0x5C, 0x66]
    else if u == 0x0D then [0x5C, 0x72]
    else if u < 0x20 || High(u) || Low(u) then UnicodeEscape(u)
    else [u]
  }

  /** The inside of a quoted string; only surrogates without a partner are escaped. */
  function Escaped(t: Text): Text {
    if t == [] then []
    else if High(t[0]) && |t| >= 2 && Low(t[1]) then t[..2] + Escaped(t[2..])
    else EscapeUnit(t[0]) + Escaped(t[1..])
  }

  function StringText(t: Text): Text {
    [0x22] + Escaped(t) + [0x22]
  }

  predicate KeyLe<V>(f: (Text, V), g: (Text, V)) {
    Le(f.0, g.0)
  }

  /** The keys are compared code unit by code unit, and the comparison orders all of them. */
  lemma KeyOrder<V(!new)>()
    ensures TotalPreorder<(Text, V)>(KeyLe<V>)
    ensures forall f: (Text, V), g: (Text, V) :: KeyLe(f, g) <==> f.0 == g.0 || Precedes(f.0, g.0)
  {
    hide Precedes;
    forall f: (Text, V), g: (Text, V) ensures KeyLe(f, g) <==> f.0 == g.0 || Precedes(f.0, g.0) {
      LeExactly(f.0, g.0);
    }
    forall f: (Text, V), g: (Text, V) ensures KeyLe(f, g) || KeyLe(g, f) {
      LeTotal(f.0, g.0);
    }
    forall f: (Text, V), g: (Text, V), h: (Text, V) | KeyLe(f, g) && KeyLe(g, h) ensures KeyLe(f, h) {
      LeTransitive(f.0, g.0, h.0);
    }
  }

  /** `join(',')` */
  function Join(ts: seq<Text>): Text {
    if ts == [] then [] else if |ts| == 1 then ts[0] else ts[0] + [0x2C] + Join(ts[1..])
  }

  function FieldText(f: (Text, Text)): Text {
    StringText(f.0) + [0x3A] + f.1
  }

  function FieldTexts(fs: seq<(Text, Text)>): (r: seq<Text>)
    ensures |r| == |fs| && forall i :: 0 <= i < |fs| ==> r[i] == FieldText(fs[i])
  {
    seq(|fs|, i requires 0 <= i < |fs| => FieldText(fs[i]))
  }

  function Canonical(v: Value): Text
    requires Valid(v)
  {
    match v
    case Undefined => Lit("null")
    case Null => Lit("null")
    case Bool(b) => if b then Lit("true") else Lit("false")
    case Num(n) => NumberText(n)
    case Str(t) => StringText(t)
    case Arr(items) => [0x5B] + Join(Rendered(items)) + [0x5D]
    case Obj(fields) => [0x7B] + Join(FieldTexts(Sort(RenderedFields(fields), KeyLe<Text>))) + [0x7D]
  }

  function Rendered(items: seq<Value>): (r: seq<Text>)
    requires forall x | x in items :: Valid(x)
    ensures |r| == |items|
  {
    if items == [] then [] else [Canonical(items[0])] + Rendered(items[1..])
  }

  function RenderedFields(fields: seq<(Text, Value)>): (r: seq<(Text, Text)>)
    requires forall f | f in fields :: Valid(f.1)
    ensures |r| == |fields| && forall i :: 0 <= i < |fields| ==> r[i].0 == fields[i].0
  {
    if fields == [] then []
    else
      var f := fields[0];
      assert f.1 < f;
      [(f.0, Canonical(f.1))] + RenderedFields(fields[1..])
  }
}
