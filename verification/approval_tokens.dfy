/** The registry of approval tokens, which marks them in place. */
module ApprovalTokens {
  import opened Texts
  import L = TokenLedgers

  class ApprovalToken {
    const token_id: Text
    const request_id: Text
    const reservation_id: Text
    var used: bool
    var valid: bool

    constructor (token_id: Text, request_id: Text, reservation_id: Text)
      ensures this.token_id == token_id && this.request_id == request_id && this.reservation_id == reservation_id
      ensures !used && valid
    {
      this.token_id := token_id;
      this.request_id := request_id;
      this.reservation_id := reservation_id;
      used, valid := false, true;
    }
  }

  class TokenRegistry {
    var tokens: map<Text, ApprovalToken>
    var counter: nat

    ghost predicate Valid()
      reads this, tokens.Values
    {
      forall id :: id in tokens ==> tokens[id].token_id == id
    }

    ghost function View(): L.Tokens
      reads this, tokens.Values
    {
      L.Tokens(counter, map id | id in tokens ::
        L.Token(tokens[id].request_id, tokens[id].reservation_id, tokens[id].used, tokens[id].valid))
    }

    constructor ()
      ensures Valid() && View() == L.Tokens(0, map[]) && tokens == map[]
    {
      tokens, counter := map[], 0;
    }

    method Issue(request_id: Text, reservation_id: Text) returns (t: ApprovalToken)
      requires Valid()
      modifies this
      ensures Valid()
      ensures View() == L.Issue(old(View()), request_id, reservation_id).0 && t.token_id == L.Issue(old(View()), request_id, reservation_id).1
      ensures fresh(tokens.Values - old(tokens.Values))
    {
      counter := counter + 1;
      t := new ApprovalToken(L.TokenId(counter), request_id, reservation_id);
      tokens := tokens[t.token_id := t];
    }

    method Use(id: Text) returns (ok: bool)
      requires Valid()
      modifies this, tokens.Values
      ensures Valid() && tokens == old(tokens)
      ensures View() == L.Use(old(View()), id).0 && ok == L.Use(old(View()), id).1
    {
      if id !in tokens || !tokens[id].valid || tokens[id].used {
        return false;
      }
      tokens[id].used := true;
      ok := true;
    }

    method InvalidateAll()
      requires Valid()
      modifies this, tokens.Values
      ensures Valid() && tokens == old(tokens) && counter == old(counter)
      ensures View() == L.InvalidateAll(old(View()))
    {
      var rest := tokens.Keys;
      while rest != {}
        invariant rest <= tokens.Keys && tokens == old(tokens) && counter == old(counter)
        invariant forall id :: id in tokens ==> tokens[id].used == old(tokens[id].used)
        invariant forall id :: id in tokens && id !in rest ==> !tokens[id].valid
        decreases |rest|
      {
        var id :| id in rest;
        tokens[id].valid := false;
        rest := rest - {id};
      }
    }
  }
}
