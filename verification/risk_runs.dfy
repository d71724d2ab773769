/** What holds over whole runs of the risk engine. */
module RiskRuns {
  import opened Texts
  import opened Options
  import opened Sequences
  import Sums
  import opened RiskMachine
  import opened RiskCore
  import L = Ledgers
  import K = TokenLedgers

  // ---- approvals ----

  /** Approved requests, tokens and reservations correspond one to one. */
  lemma TicketsOneToOne(c: Config, s: Engine, a: Text, b: Text)
    requires Sound(c, s) && a in s.decisions && b in s.decisions && a != b
    requires s.decisions[a].approved && s.decisions[b].approved
    ensures var x, y := s.decisions[a].ticket, s.decisions[b].ticket;
      && x.Some? && y.Some?
      && x.value.token_id != y.value.token_id && x.value.reservation_id != y.value.reservation_id
      && x.value.token_id in s.tokens.issued && x.value.reservation_id in s.ledger.entries
      && s.tokens.issued[x.value.token_id].request_id == a
      && s.ledger.entries[x.value.reservation_id].request_id == a
  {
    hide L.Sound, L.ReservationId, K.TokenId;
    assert Recorded(s, a) && Recorded(s, b);
    var m :| 1 <= m <= s.tokens.counter && Owns(s, a, m);
    var n :| 1 <= n <= s.tokens.counter && Owns(s, b, n);
    if m != n {
      OtherIds(m, n);
    }
  }

  /** Every issued token was given to an approved request whose decision names it. */
  lemma EveryTokenApproved(c: Config, s: Engine, t: Text)
    requires Sound(c, s) && t in s.tokens.issued
    ensures var r := s.tokens.issued[t].request_id;
      && r in s.decisions && s.decisions[r].approved
      && s.decisions[r].ticket.Some? && s.decisions[r].ticket.value.token_id == t
  {
    hide L.Sound, L.ReservationId, K.TokenId;
    var n :| 1 <= n <= s.tokens.counter && t == K.TokenId(n);
    assert PairAt(s, n);
    assert Recorded(s, s.tokens.issued[t].request_id);
  }

  // ---- the limits in terms of positions and equity ----

  /** What the positions amount to, in one symbol or in all, wherever they stand and whichever
      way they point. */
  function Amount(ps: seq<Position>, symbol: Option<Text>): real {
    if ps == [] then 0.0
    else
      var p := ps[|ps| - 1];
      Amount(ps[..|ps| - 1], symbol)
        + if symbol.Some? && p.symbol != symbol.value then 0.0 else if p.notional < 0.0 then -p.notional else p.notional
  }

  /** The exposures are those amounts. */
  lemma {:induction false} ExposureIs(ps: seq<Position>, symbol: Text)
    ensures Exposure(ps) == Amount(ps, None) && SymbolExposure(ps, symbol) == Amount(ps, Some(symbol))
  {
    if ps == [] {
      NoExposure();
    } else {
      var front, p := ps[..|ps| - 1], ps[|ps| - 1];
      ExposureIs(front, symbol);
      var own := (x: Position) => x.symbol == symbol;
      assert ps == front + [p];
      FilterSnoc(front, p, own);
      ExposureNext(front, p);
      ExposureNext(Filter(front, own), p);
      assert Filter(front, own) + [] == Filter(front, own);
    }
  }

  /** More of a positive peak is lost than this fraction of it; where nothing is lost, only a
      negative fraction is exceeded. */
  predicate LosesMore(e: Equity, fraction: real) {
    if e.peak > 0.0 && e.current < e.peak then e.peak - e.current > fraction * e.peak else fraction < 0.0
  }

  lemma DrawdownExceeds(e: Equity, fraction: real)
    ensures Drawdown(e) > fraction <==> LosesMore(e, fraction)
  {
    if e.peak > 0.0 {
      var d := (e.peak - e.current) / e.peak;
      assert d * e.peak == e.peak - e.current;
      Sign(d - fraction, e.peak);
      assert (d - fraction) * e.peak == d * e.peak - fraction * e.peak;
      Sign(d, e.peak);
    }
  }

  /** A request that is not decided yet is approved exactly while the machine runs, not more
      than the allowed fraction of the peak is lost, both amounts stay within their limits
      with the request added, and its positive amount fits the free budget. */
  lemma ApprovedExactly(c: Config, s: Engine, req: TradeRequest, ps: seq<Position>, equity: Equity)
    requires req.request_id !in s.decisions
    ensures PreTradeCheck(c, s, req, ps, equity).1.approved <==>
      && Phase(s) == RUN
      && !LosesMore(equity, c.limits.maxDrawdownPct)
      && Amount(ps, None) + req.notional <= c.limits.maxTotalExposure
      && Amount(ps, Some(req.symbol)) + req.notional <= c.limits.maxSymbolExposure
      && 0.0 < req.notional <= s.ledger.total - s.ledger.reserved - s.ledger.consumed
  {
    hide Exposure, SymbolExposure, Drawdown, Lit, Name, Halt, K.Issue, Amount, LosesMore;
    ExposureIs(ps, req.symbol);
    DrawdownExceeds(equity, c.limits.maxDrawdownPct);
  }

  /** What a rejection is for: the first of five reasons that applies, in this order. */
  lemma RejectedFor(c: Config, s: Engine, req: TradeRequest, ps: seq<Position>, equity: Equity)
    requires req.request_id !in s.decisions && !PreTradeCheck(c, s, req, ps, equity).1.approved
    ensures PreTradeCheck(c, s, req, ps, equity).1 == Decision(req.request_id, false,
      if Phase(s) != RUN then Lit("not RUN (state=") + Name(Phase(s)) + Lit(")")
      else if LosesMore(equity, c.limits.maxDrawdownPct) then Lit("drawdown breached \U{2192} HALT")
      else if Amount(ps, None) + req.notional > c.limits.maxTotalExposure then Lit("total exposure limit")
      else if Amount(ps, Some(req.symbol)) + req.notional > c.limits.maxSymbolExposure then Lit("symbol exposure limit")
      else Lit("insufficient budget"), None)
  {
    hide Exposure, SymbolExposure, Drawdown, Lit, Name, Halt, K.Issue, L.Reserve, Amount, LosesMore;
    ExposureIs(ps, req.symbol);
    DrawdownExceeds(equity, c.limits.maxDrawdownPct);
  }

  /** A check halts the machine exactly when it is asked afresh, runs, and loses too much; it
      then voids every token. Otherwise it moves nothing, and touches budget and tokens only
      by an approval. */
  lemma HaltsExactly(c: Config, s: Engine, req: TradeRequest, ps: seq<Position>, equity: Equity)
    ensures var (t, d) := PreTradeCheck(c, s, req, ps, equity);
      if req.request_id !in s.decisions && Phase(s) == RUN && LosesMore(equity, c.limits.maxDrawdownPct) then
        t.path == s.path + [HALT] && t.ledger == s.ledger && forall id :: !K.Usable(t.tokens, id)
      else
        t.path == s.path
        && (req.request_id in s.decisions || !d.approved ==> t.tokens == s.tokens && t.ledger == s.ledger)
  {
    hide Exposure, SymbolExposure, Drawdown, Lit, Name, LosesMore, L.Reserve, K.Issue;
    DrawdownExceeds(equity, c.limits.maxDrawdownPct);
    if req.request_id !in s.decisions {
      ReserveOrNot(s, req);
    }
  }

  lemma ReserveOrNot(s: Engine, req: TradeRequest)
    ensures var (t, d) := Approve(s, req);
      t.path == s.path && (!d.approved ==> t.tokens == s.tokens && t.ledger == s.ledger)
  {
    hide Lit, K.Issue;
  }

  /** The drawdown is never negative, zero exactly when nothing is below a positive peak,
      and a fraction up to one exactly for an equity that is not negative. */
  lemma DrawdownRange(e: Equity)
    ensures Drawdown(e) >= 0.0
    ensures Drawdown(e) == 0.0 <==> e.peak <= 0.0 || e.current >= e.peak
    ensures Drawdown(e) <= 1.0 <==> e.peak <= 0.0 || e.current >= 0.0
  {
    if e.peak > 0.0 {
      var d := (e.peak - e.current) / e.peak;
      assert d * e.peak == e.peak - e.current;
      Proportion(d, e.peak);
    }
  }

  lemma Proportion(d: real, peak: real)
    requires peak > 0.0
    ensures d > 0.0 <==> d * peak > 0.0
    ensures d > 1.0 <==> d * peak > peak
  {
    Sign(d, peak);
    Sign(d - 1.0, peak);
    assert (d - 1.0) * peak == d * peak - peak;
  }

  lemma Sign(x: real, peak: real)
    requires peak > 0.0
    ensures x > 0.0 <==> x * peak > 0.0
  {
    if x > 0.0 {
      assert x * peak > 0.0;
    } else {
      assert x * peak <= 0.0;
    }
  }

  /** What one symbol is exposed to is part of the whole, wherever its positions stand. */
  lemma {:induction false} SymbolWithinTotal(ps: seq<Position>, symbol: Text)
    ensures 0.0 <= SymbolExposure(ps, symbol) <= Exposure(ps)
  {
    if ps == [] {
      NoExposure();
    } else {
      var front, p := ps[..|ps| - 1], ps[|ps| - 1];
      SymbolWithinTotal(front, symbol);
      var own := (x: Position) => x.symbol == symbol;
      assert ps == front + [p];
      FilterSnoc(front, p, own);
      ExposureNext(front, p);
      ExposureNext(Filter(front, own), p);
      assert Filter(front, own) + [] == Filter(front, own);
    }
  }

  lemma NoExposure()
    ensures Exposure([]) == 0.0
  {
  }

  lemma ExposureNext(ps: seq<Position>, p: Position)
    ensures Exposure(ps + [p]) == Exposure(ps) + Sums.Abs(p.notional)
  {
    var f := (x: Position) => Sums.Abs(x.notional);
    assert Map(ps + [p], f) == Map(ps, f) + [Sums.Abs(p.notional)];
    Sums.SeqConcat(Map(ps, f), [Sums.Abs(p.notional)]);
    assert [Sums.Abs(p.notional)][..0] == [];
  }

  // ---- what never comes back ----

  /** A token that was used or voided. */
  predicate Spent(s: Engine, t: Text) {
    t in s.tokens.issued && (s.tokens.issued[t].used || !s.tokens.issued[t].valid)
  }

  /** `b` only adds to `a`: decisions stand, spent tokens stay spent, issued tokens and
      filed reservations keep their owner and amount, the path grows. */
  ghost predicate Grows(a: Engine, b: Engine) {
    && (forall r :: r in a.decisions ==> r in b.decisions && b.decisions[r] == a.decisions[r])
    && (forall t :: Spent(a, t) ==> Spent(b, t))
    && (forall t :: t in a.tokens.issued ==> t in b.tokens.issued)
    && (forall r :: r in a.ledger.entries ==>
          r in b.ledger.entries && b.ledger.entries[r].(phase := L.Reserved) == a.ledger.entries[r].(phase := L.Reserved))
    && a.path <= b.path
  }

  lemma GrowsTransitive(a: Engine, b: Engine, c: Engine)
    requires Grows(a, b) && Grows(b, c)
    ensures Grows(a, c)
  {
    hide Spent;
  }

  lemma HaltGrows(s: Engine)
    ensures Grows(s, Halt(s).0)
  {
  }

  lemma ApproveGrows(c: Config, s: Engine, req: TradeRequest)
    requires Sound(c, s) && req.request_id !in s.decisions
    ensures Grows(s, Approve(s, req).0)
  {
    hide Lit, L.Held, L.Sound, L.ReservationId, K.TokenId, Paired;
    NextFree(s);
  }

  lemma PreTradeGrows(c: Config, s: Engine, req: TradeRequest, ps: seq<Position>, equity: Equity)
    requires Sound(c, s)
    ensures Grows(s, PreTradeCheck(c, s, req, ps, equity).0)
  {
    hide Exposure, Drawdown, Lit, Name, Halt, Sound, Approve;
    HaltGrows(s);
    HaltKeepsRest(s);
    if req.request_id !in s.decisions {
      ApproveGrows(c, s, req);
    }
  }

  lemma MoveGrows(s: Engine, to: RiskState)
    ensures Grows(s, Move(s, to).0)
  {
  }

  lemma SettleGrows(s: Engine, id: Text)
    ensures Grows(s, Confirm(s, id).0) && Grows(s, Release(s, id).0)
  {
  }

  lemma AuthorizeGrows(s: Engine, token: Text)
    ensures Grows(s, Authorize(s, token).0)
  {
  }

  lemma RecoverGrows(c: Config, s: Engine, checks: Checks)
    ensures Grows(s, Recover(c, s, checks).0)
  {
  }

  /** No call takes anything back. */
  lemma StepGrows(c: Config, s: Engine, call: Call)
    requires Sound(c, s)
    ensures Grows(s, Step(c, s, call))
  {
    hide Sound, Grows, PreTradeCheck, Halt, PositionsAgree, Move, Confirm, Release, Authorize, Recover;
    SelfGrows(s);
    HaltGrows(s);
    match call
    case CallInit => MoveGrows(s, READY);
    case CallStart => MoveGrows(s, RUN);
    case CallEnterSafeMode => MoveGrows(s, SAFE_MODE);
    case CallExitSafeMode => MoveGrows(s, RUN);
    case CallPreTradeCheck(req, ps, equity) => PreTradeGrows(c, s, req, ps, equity);
    case CallAuthorize(token) => AuthorizeGrows(s, token);
    case CallConfirm(id) => SettleGrows(s, id);
    case CallRelease(id) => SettleGrows(s, id);
    case CallHalt =>
    case CallReconcile(_, _) =>
    case CallRecover(checks) => RecoverGrows(c, s, checks);
  }

  lemma {:induction false} RunGrows(c: Config, past: seq<RiskState>, calls: seq<Call>, more: seq<Call>)
    requires Resumable(past)
    ensures Grows(Run(c, past, calls), Run(c, past, calls + more))
  {
    hide Sound, Resumable, Step, Grows;
    if more == [] {
      assert calls + more == calls;
      SelfGrows(Run(c, past, calls));
    } else {
      var all, front := calls + more, more[..|more| - 1];
      assert all[..|all| - 1] == calls + front;
      RunGrows(c, past, calls, front);
      RunSound(c, past, calls + front);
      StepGrows(c, Run(c, past, calls + front), more[|more| - 1]);
      GrowsTransitive(Run(c, past, calls), Run(c, past, calls + front), Run(c, past, all));
    }
  }

  lemma SelfGrows(s: Engine)
    ensures Grows(s, s)
  {
  }

  /** Asking again about a decided request, after whatever happened in between, gives
      the first decision and changes nothing. */
  lemma RepeatedRequest(c: Config, past: seq<RiskState>, calls: seq<Call>, more: seq<Call>, req: TradeRequest,
                        again: TradeRequest, ps: seq<Position>, equity: Equity, ps': seq<Position>, equity': Equity)
    requires Resumable(past) && again.request_id == req.request_id
    ensures var first := PreTradeCheck(c, Run(c, past, calls), req, ps, equity).1;
      var s := Run(c, past, calls + [CallPreTradeCheck(req, ps, equity)] + more);
      PreTradeCheck(c, s, again, ps', equity') == (s, first)
  {
    hide Sound, Resumable, Exposure, Drawdown, Lit, Name, Halt, L.Reserve, K.Issue;
    var asked := calls + [CallPreTradeCheck(req, ps, equity)];
    assert asked[..|asked| - 1] == calls;
    RunGrows(c, past, asked, more);
  }

  predicate Granted(s: Engine, call: Call) {
    call.CallAuthorize? && K.Usable(s.tokens, call.token)
  }

  /** A token authorises at most one execution in a whole run. */
  lemma SingleUse(c: Config, past: seq<RiskState>, calls: seq<Call>, i: nat, j: nat)
    requires Resumable(past)
    requires i < j < |calls|
    requires calls[i].CallAuthorize? && calls[j] == calls[i]
    ensures Granted(Run(c, past, calls[..i]), calls[i]) ==> !Granted(Run(c, past, calls[..j]), calls[j])
  {
    hide Sound, Resumable;
    assert calls[..i + 1][..i] == calls[..i];
    assert calls[..j] == calls[..i + 1] + calls[i + 1..j];
    RunGrows(c, past, calls[..i + 1], calls[i + 1..j]);
    assert Granted(Run(c, past, calls[..i]), calls[i]) ==> Spent(Run(c, past, calls[..i + 1]), calls[i].token);
  }

  /** A halt voids every token issued before it, for good, even when it throws. */
  lemma HaltVoidsForever(c: Config, past: seq<RiskState>, calls: seq<Call>, more: seq<Call>, t: Text)
    requires Resumable(past)
    requires t in Run(c, past, calls).tokens.issued
    ensures !K.Usable(Run(c, past, calls + [CallHalt] + more).tokens, t)
  {
    hide Sound, Resumable;
    var halted := calls + [CallHalt];
    assert halted[..|halted| - 1] == calls;
    RunSound(c, past, calls);
    HaltSound(c, Run(c, past, calls));
    HaltGrows(Run(c, past, calls));
    assert Run(c, past, halted) == Halt(Run(c, past, calls)).0;
    assert !K.Usable(Run(c, past, halted).tokens, t);
    assert Spent(Run(c, past, halted), t);
    RunGrows(c, past, halted, more);
  }

  /** The halt throws exactly where the machine can neither halt nor is frozen. */
  lemma HaltThrows(s: Engine)
    ensures !Halt(s).1 <==> Phase(s) in {INIT, READY, HALT}
    ensures !Halt(s).1 ==> Halt(s).0 == s.(tokens := K.InvalidateAll(s.tokens))
  {
  }

  /** Where each call leaves the machine. `init` also ends a recovery whose checks threw, and
      `start` and `exitSafeMode` move alike: either starts the machine and either leaves the
      safe mode. */
  lemma PhaseAfter(c: Config, s: Engine, call: Call)
    ensures Phase(Step(c, s, call)) ==
      match call
      case CallInit => if Phase(s) in {INIT, RECOVERY} then READY else Phase(s)
      case CallStart => if Phase(s) in {READY, SAFE_MODE} then RUN else Phase(s)
      case CallExitSafeMode => if Phase(s) in {READY, SAFE_MODE} then RUN else Phase(s)
      case CallEnterSafeMode => if Phase(s) == RUN then SAFE_MODE else Phase(s)
      case CallHalt => if Phase(s) in {RUN, SAFE_MODE, RECOVERY} then HALT else Phase(s)
      case CallReconcile(ours, theirs) =>
        if Phase(s) in {RUN, SAFE_MODE, RECOVERY} && !PositionsAgree(c, ours, theirs) then HALT else Phase(s)
      case CallRecover(checks) =>
        if Phase(s) != HALT then Phase(s)
        else if checks == Throw then RECOVERY
        else if checks == Pass then READY
        else if s.failures + 1 >= c.maxRecoveryAttempts then FROZEN
        else HALT
      case CallPreTradeCheck(req, ps, equity) =>
        if req.request_id !in s.decisions && Phase(s) == RUN && LosesMore(equity, c.limits.maxDrawdownPct) then HALT
        else Phase(s)
      case CallAuthorize(_) => Phase(s)
      case CallConfirm(_) => Phase(s)
      case CallRelease(_) => Phase(s)
  {
    hide PreTradeCheck, PositionsAgree, LosesMore, L.Consume, L.Release, K.Use, K.InvalidateAll;
    if call.CallPreTradeCheck? {
      HaltsExactly(c, s, call.req, call.positions, call.equity);
    }
  }

  /** What each call does to the budget: a check reserves what it approves anew, a
      confirmation turns a held reservation into consumed budget, a release gives back what
      is held or consumed, and nothing else touches it. */
  lemma BudgetAfter(c: Config, s: Engine, call: Call)
    ensures var (was, now) := (s.ledger, Step(c, s, call).ledger);
      match call
      case CallConfirm(id) =>
        if id in was.entries && was.entries[id].phase == L.Reserved then
          && now.entries == was.entries[id := was.entries[id].(phase := L.Consumed)]
          && (now.reserved, now.consumed) == (was.reserved - was.entries[id].amount, was.consumed + was.entries[id].amount)
        else now == was
      case CallRelease(id) =>
        if id in was.entries && was.entries[id].phase != L.Released then
          && now.entries == was.entries[id := was.entries[id].(phase := L.Released)]
          && now.reserved + now.consumed == was.reserved + was.consumed - was.entries[id].amount
          && (was.entries[id].phase == L.Reserved ==> now.consumed == was.consumed)
          && (was.entries[id].phase == L.Consumed ==> now.reserved == was.reserved)
        else now == was
      case CallPreTradeCheck(req, ps, equity) =>
        if req.request_id !in s.decisions && PreTradeCheck(c, s, req, ps, equity).1.approved then
          now.reserved == was.reserved + req.notional && now.consumed == was.consumed
        else now == was
      case _ => now == was
  {
    hide PositionsAgree, LosesMore, Exposure, SymbolExposure, Drawdown, Lit, Name, K.Use, K.Issue, K.InvalidateAll;
    if call.CallPreTradeCheck? {
      HaltsExactly(c, s, call.req, call.positions, call.equity);
    }
  }

  /** Asking for an execution spends a usable token, and only that one. */
  lemma AuthorizeSpends(c: Config, s: Engine, token: Text, other: Text)
    ensures var t := Step(c, s, CallAuthorize(token));
      && !K.Usable(t.tokens, token)
      && (other != token ==> (K.Usable(t.tokens, other) <==> K.Usable(s.tokens, other)))
      && t.(tokens := s.tokens) == s
  {
  }

  // ---- freezing ----

  /** Recoveries whose checks failed since the last one whose checks passed. */
  function RecentFailures(c: Config, past: seq<RiskState>, calls: seq<Call>): nat {
    if calls == [] then 0
    else
      var front, last := calls[..|calls| - 1], calls[|calls| - 1];
      if last.CallRecover? && Phase(Run(c, past, front)) == HALT then
        match last.checks
        case Pass => 0
        case Fail => RecentFailures(c, past, front) + 1
        case Throw => RecentFailures(c, past, front)
      else RecentFailures(c, past, front)
  }

  lemma PreTradeKeepsFailures(c: Config, s: Engine, req: TradeRequest, ps: seq<Position>, equity: Equity)
    ensures PreTradeCheck(c, s, req, ps, equity).0.failures == s.failures
  {
    hide L.Reserve, K.Issue, K.InvalidateAll, Lit, Name, Exposure, Drawdown;
  }

  /** Only a recovery that begins in HALT counts. */
  lemma FailuresStep(c: Config, s: Engine, call: Call)
    ensures Step(c, s, call).failures ==
      if call.CallRecover? && Phase(s) == HALT then
        match call.checks case Pass => 0 case Fail => s.failures + 1 case Throw => s.failures
      else s.failures
  {
    hide PreTradeCheck, L.Consume, L.Release, K.Use, K.InvalidateAll, PositionsAgree;
    if call.CallPreTradeCheck? {
      PreTradeKeepsFailures(c, s, call.req, call.positions, call.equity);
    }
  }

  lemma {:induction false} FailuresCounted(c: Config, past: seq<RiskState>, calls: seq<Call>)
    ensures Run(c, past, calls).failures == RecentFailures(c, past, calls)
  {
    hide Step, Phase;
    if calls != [] {
      var front := calls[..|calls| - 1];
      FailuresCounted(c, past, front);
      FailuresStep(c, Run(c, past, front), calls[|calls| - 1]);
    }
  }

  /** The machine is frozen exactly when the limit-th recovery in a row has failed; the
      limit is at least one, and no more failures than that are ever counted. */
  lemma FrozenExactly(c: Config, past: seq<RiskState>, calls: seq<Call>)
    requires Resumable(past)
    ensures Phase(Run(c, past, calls)) == FROZEN <==> RecentFailures(c, past, calls) == FailureLimit(c)
    ensures RecentFailures(c, past, calls) <= FailureLimit(c)
  {
    RunSound(c, past, calls);
    FailuresCounted(c, past, calls);
  }

  /** Over every run: a machine that halted and runs again went through a recovery and
      an approval in between, and tokens can be used only while it runs. */
  lemma RunsAgainOnlyApproved(c: Config, past: seq<RiskState>, calls: seq<Call>, i: nat, j: nat)
    requires Resumable(past)
    requires i < j < |Run(c, past, calls).path|
    requires Run(c, past, calls).path[i] == HALT && Run(c, past, calls).path[j] == RUN
    ensures exists k :: i < k && k + 1 < j && Run(c, past, calls).path[k] == RECOVERY && Run(c, past, calls).path[k + 1] == READY
  {
    RunSound(c, past, calls);
    HaltIsLatching(Run(c, past, calls).path, i, j);
  }

  // ---- behind an earlier log ----

  lemma FrozenStep(c: Config, s: Engine, call: Call)
    requires Phase(s) == FROZEN && s.tokens == K.Tokens(0, map[]) && s.ledger == L.Empty(c.total)
    requires forall r :: r in s.decisions ==> !s.decisions[r].approved
    ensures var t := Step(c, s, call);
      && t.path == s.path && t.tokens == s.tokens && t.ledger == s.ledger
      && forall r :: r in t.decisions ==> !t.decisions[r].approved
  {
    hide Lit, Name, Exposure, Drawdown, PositionsAgree;
  }

  /** An engine behind a log whose machine froze stays frozen, and approves and reserves
      nothing, whatever is called. */
  lemma {:induction false} StaysFrozen(c: Config, past: seq<RiskState>, calls: seq<Call>)
    requires Current(past) == FROZEN
    ensures var s := Run(c, past, calls);
      && s.path == past && s.tokens == K.Tokens(0, map[]) && s.ledger == L.Empty(c.total)
      && forall r :: r in s.decisions ==> !s.decisions[r].approved
  {
    hide Step;
    if calls != [] {
      StaysFrozen(c, past, calls[..|calls| - 1]);
      FrozenStep(c, Run(c, past, calls[..|calls| - 1]), calls[|calls| - 1]);
    }
  }
}
