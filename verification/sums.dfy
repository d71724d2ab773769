/** Finite sums of exact numbers, over sets of keys and over sequences. */
module Sums {

  ghost function Over<K>(s: set<K>, f: K -> real): real {
    if s == {} then 0.0
    else
      var k :| k in s;
      f(k) + Over(s - {k}, f)
  }

  lemma {:induction false} Split<K>(s: set<K>, f: K -> real, x: K)
    requires x in s
    ensures Over(s, f) == f(x) + Over(s - {x}, f)
  {
    var k :| k in s && Over(s, f) == f(k) + Over(s - {k}, f);
    if k != x {
      Split(s - {k}, f, x);
      Split(s - {x}, f, k);
      assert s - {k} - {x} == s - {x} - {k};
    }
  }

  lemma {:induction false} Same<K>(s: set<K>, f: K -> real, g: K -> real)
    requires forall k :: k in s ==> f(k) == g(k)
    ensures Over(s, f) == Over(s, g)
  {
    if s != {} {
      var k :| k in s;
      Split(s, f, k);
      Split(s, g, k);
      Same(s - {k}, f, g);
    }
  }

  lemma OverNothing<K>(f: K -> real)
    ensures Over({}, f) == 0.0
    ensures forall s: set<K> :: Over(s - s, f) == 0.0
  {
    forall s: set<K> ensures Over(s - s, f) == 0.0 {
      assert s - s == {};
    }
  }

  lemma Add<K>(s: set<K>, f: K -> real, x: K)
    requires x !in s
    ensures Over(s + {x}, f) == Over(s, f) + f(x)
  {
    Split(s + {x}, f, x);
    assert s + {x} - {x} == s;
  }

  lemma {:induction false} NonNegative<K>(s: set<K>, f: K -> real)
    requires forall k :: k in s ==> f(k) >= 0.0
    ensures Over(s, f) >= 0.0
  {
    if s != {} {
      var k :| k in s;
      Split(s, f, k);
      NonNegative(s - {k}, f);
    }
  }

  lemma Distribute(c: real, x: real, y: real)
    ensures c * (x + y) == c * x + c * y
  {
  }

  lemma {:induction false} Scale<K>(s: set<K>, f: K -> real, g: K -> real, c: real)
    requires forall k :: k in s ==> g(k) == c * f(k)
    ensures Over(s, g) == c * Over(s, f)
  {
    if s != {} {
      var k :| k in s;
      Scale(s - {k}, f, g, c);
      ScaleStep(s, f, g, c, k);
    }
  }

  lemma ScaleStep<K>(s: set<K>, f: K -> real, g: K -> real, c: real, k: K)
    requires k in s && g(k) == c * f(k) && Over(s - {k}, g) == c * Over(s - {k}, f)
    ensures Over(s, g) == c * Over(s, f)
  {
    hide Over;
    Split(s, f, k);
    Split(s, g, k);
    Distribute(c, f(k), Over(s - {k}, f));
  }

  function Abs(x: real): real { if x < 0.0 then -x else x }

  function Seq(s: seq<real>): real {
    if s == [] then 0.0 else Seq(s[..|s| - 1]) + s[|s| - 1]
  }

  lemma {:induction false} SeqConcat(a: seq<real>, b: seq<real>)
    ensures Seq(a + b) == Seq(a) + Seq(b)
  {
    if b == [] {
      assert a + b == a;
    } else {
      SeqConcat(a, b[..|b| - 1]);
      assert (a + b)[..|a + b| - 1] == a + b[..|b| - 1];
    }
  }
}
