/** JavaScript strings: finite sequences of UTF-16 code units, with the decimal
    printing of whole numbers that template literals use. */
module Texts {

  type CodeUnit = n: int | 0 <= n < 0x10000 witness 0

  type Text = seq<CodeUnit>

  function Unit(c: char): CodeUnit {
    if c as int < 0x10000 then c as int else 0xFFFD
  }

  /** A literal of the program text; every literal used here is ASCII. */
  function Lit(s: string): (t: Text)
    ensures |t| == |s|
    ensures forall i :: 0 <= i < |s| ==> t[i] == Unit(s[i])
  {
    seq(|s|, i requires 0 <= i < |s| => Unit(s[i]))
  }

  predicate IsDigit(u: CodeUnit) {
    0x30 <= u <= 0x39
  }

  /** Decimal digits of a whole number, as `${n}` prints it below 1e21. */
  function NatText(n: nat): (t: Text)
    ensures |t| >= 1
    ensures forall i :: 0 <= i < |t| ==> IsDigit(t[i])
  {
    if n < 10 then [0x30 + n] else NatText(n / 10) + [0x30 + n % 10]
  }

  lemma {:induction false} NatTextInjective(a: nat, b: nat)
    requires NatText(a) == NatText(b)
    ensures a == b
  {
    var t := NatText(a);
    assert t[|t| - 1] == 0x30 + a % 10 == 0x30 + b % 10;
    if a >= 10 && b >= 10 {
      assert NatText(a / 10) == t[..|t| - 1] == NatText(b / 10);
      NatTextInjective(a / 10, b / 10);
    }
  }

  function IntText(n: int): (t: Text)
    ensures |t| >= 1
    ensures forall i :: 0 <= i < |t| ==> IsDigit(t[i]) || t[i] == 0x2D
  {
    if n < 0 then [0x2D] + NatText(-n) else NatText(n)
  }

  lemma IntTextInjective(a: int, b: int)
    requires IntText(a) == IntText(b)
    ensures a == b
  {
    assert a < 0 <==> IntText(a)[0] == 0x2D;
    assert b < 0 <==> IntText(b)[0] == 0x2D;
    if a < 0 {
      assert NatText(-a) == IntText(a)[1..] == NatText(-b);
      NatTextInjective(-a, -b);
    } else {
      NatTextInjective(a, b);
    }
  }

  /** What follows the last separator is determined by the whole text. */
  lemma {:induction false} SplitAtLast(a: Text, x: Text, b: Text, y: Text, sep: CodeUnit)
    requires a + [sep] + x == b + [sep] + y
    requires sep !in x && sep !in y
    ensures a == b && x == y
  {
    var t := a + [sep] + x;
    assert t[|a|] == sep && (b + [sep] + y)[|a|] == sep;
    assert t[|b|] == sep;
    if |a| == |b| {
      assert a == t[..|a|] == b;
      assert x == t[|a| + 1..] == y;
    }
  }

  /** The order of `sort()` without a comparator: code unit by code unit. */
  predicate Le(a: Text, b: Text) {
    a == [] || (b != [] && (a[0] < b[0] || (a[0] == b[0] && Le(a[1..], b[1..]))))
  }

  lemma {:induction false} LeTotal(a: Text, b: Text)
    ensures Le(a, b) || Le(b, a)
  {
    if a != [] && b != [] && a[0] == b[0] {
      LeTotal(a[1..], b[1..]);
    }
  }

  lemma {:induction false} LeTransitive(a: Text, b: Text, c: Text)
    requires Le(a, b) && Le(b, c)
    ensures Le(a, c)
  {
    if a != [] && a[0] == b[0] == c[0] {
      LeTransitive(a[1..], b[1..], c[1..]);
    }
  }

  lemma {:induction false} LeAntisymmetric(a: Text, b: Text)
    requires Le(a, b) && Le(b, a)
    ensures a == b
  {
    if a != [] {
      LeAntisymmetric(a[1..], b[1..]);
      assert a == [a[0]] + a[1..] && b == [b[0]] + b[1..];
    }
  }

  /** A proper prefix of the other text, or smaller where the two first differ. */
  ghost predicate Precedes(a: Text, b: Text) {
    exists n: nat :: DiffersAt(a, b, n)
  }

  predicate DiffersAt(a: Text, b: Text, n: nat) {
    && n <= |a| && n < |b| && a[..n] == b[..n]
    && (n < |a| ==> a[n] < b[n])
  }

  /** The order of texts is that of their first difference. */
  lemma {:induction false} LeExactly(a: Text, b: Text)
    ensures Le(a, b) <==> a == b || Precedes(a, b)
  {
    if a == [] {
      assert b != [] ==> DiffersAt(a, b, 0);
    } else if b == [] {
      assert forall n: nat :: !DiffersAt(a, b, n);
    } else if a[0] == b[0] {
      LeExactly(a[1..], b[1..]);
      TailsDiffer(a, b);
      assert a == [a[0]] + a[1..] && b == [b[0]] + b[1..];
    } else {
      assert a[0] < b[0] ==> DiffersAt(a, b, 0);
      forall n: nat | DiffersAt(a, b, n) ensures a[0] < b[0] {
        assert n > 0 ==> a[..n][0] == b[..n][0];
      }
    }
  }

  lemma TailsDiffer(a: Text, b: Text)
    requires a != [] && b != [] && a[0] == b[0]
    ensures Precedes(a, b) <==> Precedes(a[1..], b[1..])
  {
    forall n: nat ensures DiffersAt(a[1..], b[1..], n) <==> DiffersAt(a, b, n + 1) {
      if n + 1 <= |a| && n + 1 <= |b| {
        assert a[..n + 1] == [a[0]] + a[1..][..n] && b[..n + 1] == [b[0]] + b[1..][..n];
      }
    }
    assert !DiffersAt(a, b, 0);
    if n: nat :| DiffersAt(a, b, n) {
      assert DiffersAt(a[1..], b[1..], n - 1);
    }
    if n: nat :| DiffersAt(a[1..], b[1..], n) {
      assert DiffersAt(a, b, n + 1);
    }
  }
}
