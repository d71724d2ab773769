/** Single-use approval tokens as values. */
module TokenLedgers {
  import opened Texts

  datatype Token = Token(request_id: Text, reservation_id: Text, used: bool, valid: bool)

  datatype Tokens = Tokens(counter: nat, issued: map<Text, Token>)

  function TokenId(n: nat): Text {
    Lit("tok-") + NatText(n)
  }

  lemma TokenIdInjective(m: nat, n: nat)
    requires TokenId(m) == TokenId(n)
    ensures m == n
  {
    assert NatText(m) == TokenId(m)[4..] == TokenId(n)[4..] == NatText(n);
    NatTextInjective(m, n);
  }

  lemma TokenIdInjectiveUnless(m: nat, n: nat)
    ensures m != n ==> TokenId(m) != TokenId(n)
  {
    if TokenId(m) == TokenId(n) {
      TokenIdInjective(m, n);
    }
  }

  predicate Usable(ts: Tokens, id: Text) {
    id in ts.issued && ts.issued[id].valid && !ts.issued[id].used
  }

  function Issue(ts: Tokens, request_id: Text, reservation_id: Text): (Tokens, Text) {
    var id := TokenId(ts.counter + 1);
    (Tokens(ts.counter + 1, ts.issued[id := Token(request_id, reservation_id, false, true)]), id)
  }

  function Use(ts: Tokens, id: Text): (Tokens, bool) {
    if Usable(ts, id) then (ts.(issued := ts.issued[id := ts.issued[id].(used := true)]), true) else (ts, false)
  }

  function InvalidateAll(ts: Tokens): Tokens {
    ts.(issued := map id | id in ts.issued :: ts.issued[id].(valid := false))
  }
}
