/** The risk engine on values: the limits, every call as a step from state to state,
    and what holds after every sequence of calls. */
module RiskCore {
  import opened Texts
  import opened Options
  import opened Sequences
  import Sorting
  import Sums
  import opened CanonicalJson
  import opened RiskMachine
  import L = Ledgers
  import K = TokenLedgers

  datatype Position = Position(symbol: Text, qty: real, notional: real)
  datatype Limits = Limits(maxTotalExposure: real, maxSymbolExposure: real, maxDrawdownPct: real)
  datatype Equity = Equity(peak: real, current: real)
  datatype TradeRequest = TradeRequest(request_id: Text, symbol: Text, notional: real)
  datatype Ticket = Ticket(token_id: Text, reservation_id: Text)
  datatype Decision = Decision(request_id: Text, approved: bool, reason: Text, ticket: Option<Ticket>)

  type Printable = n: Number | n.Valid() witness Zero(false)

  /** `number` is how the language represents a real; only printing depends on it. */
  datatype Config = Config(total: real, limits: Limits, maxRecoveryAttempts: int, number: real -> Printable)

  datatype Engine = Engine(
    ledger: L.Ledger,
    tokens: K.Tokens,
    decisions: map<Text, Decision>,
    failures: int,
    path: seq<RiskState>)

  function New(c: Config): Engine {
    Engine(L.Empty(c.total), K.Tokens(0, map[]), map[], 0, [])
  }

  /** An engine built over a log that earlier engines left: it takes up their state, and
      nothing else of theirs. */
  function Restarted(c: Config, past: seq<RiskState>): Engine {
    New(c).(path := past)
  }

  // ---- limits ----

  function Exposure(ps: seq<Position>): real {
    Sums.Seq(Map(ps, (p: Position) => Sums.Abs(p.notional)))
  }

  function SymbolExposure(ps: seq<Position>, symbol: Text): real {
    Exposure(Filter(ps, (p: Position) => p.symbol == symbol))
  }

  function ExposureProblem(ps: seq<Position>, symbol: Text, add: real, limits: Limits): Option<Text> {
    if Exposure(ps) + add > limits.maxTotalExposure then Some(Lit("total exposure limit"))
    else if SymbolExposure(ps, symbol) + add > limits.maxSymbolExposure then Some(Lit("symbol exposure limit"))
    else None
  }

  function Drawdown(e: Equity): real {
    if e.peak <= 0.0 then 0.0
    else if e.peak < e.current then 0.0
    else (e.peak - e.current) / e.peak
  }

  // ---- the calls ----

  function Phase(s: Engine): RiskState { Current(s.path) }

  function Move(s: Engine, to: RiskState): (Engine, bool) {
    if CanTransition(Phase(s), to) then (s.(path := s.path + [to]), true) else (s, false)
  }

  /** Voids every token, then halts; in a phase that cannot halt it throws with the
      tokens already void. */
  function Halt(s: Engine): (Engine, bool) {
    if Phase(s) == FROZEN then (s, true)
    else Move(s.(tokens := K.InvalidateAll(s.tokens)), HALT)
  }

  function Reject(s: Engine, request_id: Text, reason: Text): (Engine, Decision) {
    var d := Decision(request_id, false, reason, None);
    (s.(decisions := s.decisions[request_id := d]), d)
  }

  function Approve(s: Engine, req: TradeRequest): (Engine, Decision) {
    var (ledger, reservation) := L.Reserve(s.ledger, req.request_id, req.notional);
    match reservation
    case None => Reject(s, req.request_id, Lit("insufficient budget"))
    case Some(id) =>
      var (tokens, token) := K.Issue(s.tokens, req.request_id, id);
      var d := Decision(req.request_id, true, Lit("approved"), Some(Ticket(token, id)));
      (s.(ledger := ledger, tokens := tokens, decisions := s.decisions[req.request_id := d]), d)
  }

  function PreTradeCheck(c: Config, s: Engine, req: TradeRequest, ps: seq<Position>,
                         equity: Equity): (Engine, Decision) {
    if req.request_id in s.decisions then (s, s.decisions[req.request_id])
    else if Phase(s) != RUN then
      Reject(s, req.request_id, Lit("not RUN (state=") + Name(Phase(s)) + Lit(")"))
    else if Drawdown(equity) > c.limits.maxDrawdownPct then
      Reject(Halt(s).0, req.request_id, Lit("drawdown breached \U{2192} HALT"))
    else
      match ExposureProblem(ps, req.symbol, req.notional, c.limits)
      case Some(reason) => Reject(s, req.request_id, reason)
      case None => Approve(s, req)
  }

  function Authorize(s: Engine, token: Text): (Engine, bool) {
    var (tokens, ok) := K.Use(s.tokens, token);
    (s.(tokens := tokens), ok)
  }

  function Confirm(s: Engine, reservation: Text): (Engine, bool) {
    var (ledger, ok) := L.Consume(s.ledger, reservation);
    (s.(ledger := ledger), ok)
  }

  function Release(s: Engine, reservation: Text): (Engine, bool) {
    var (ledger, ok) := L.Release(s.ledger, reservation);
    (s.(ledger := ledger), ok)
  }

  /** The sorted list of `symbol:qty` that two position reports are compared by. */
  function PositionsText(c: Config, ps: seq<Position>): seq<Text> {
    Sorting.Sort(Map(ps, (p: Position) => p.symbol + [0x3A] + TemplateText(c.number(p.qty))), Le)
  }

  function JoinBars(ts: seq<Text>): Text {
    if ts == [] then [] else if |ts| == 1 then ts[0] else ts[0] + [0x7C] + JoinBars(ts[1..])
  }

  function PositionsAgree(c: Config, ours: seq<Position>, theirs: seq<Position>): bool {
    JoinBars(PositionsText(c, ours)) == JoinBars(PositionsText(c, theirs))
  }

  /** What the automatic checks of a recovery did. */
  datatype Checks = Pass | Fail | Throw

  function FailChecks(c: Config, s: Engine): Engine {
    var n := s.failures + 1;
    Move(s.(failures := n), if n >= c.maxRecoveryAttempts then FROZEN else HALT).0
  }

  /** Begins a recovery; when the checks throw, the machine stays in RECOVERY. */
  function Recover(c: Config, s: Engine, checks: Checks): (Engine, bool) {
    var (r, ok) := Move(s, RECOVERY);
    if !ok then (s, false)
    else
      match checks
      case Throw => (r, false)
      case Pass => (Move(r, READY).0.(failures := 0), true)
      case Fail => (FailChecks(c, r), true)
  }

  datatype Call =
    | CallInit
    | CallStart
    | CallEnterSafeMode
    | CallExitSafeMode
    | CallPreTradeCheck(req: TradeRequest, positions: seq<Position>, equity: Equity)
    | CallAuthorize(token: Text)
    | CallConfirm(reservation: Text)
    | CallRelease(reservation: Text)
    | CallHalt
    | CallReconcile(ours: seq<Position>, theirs: seq<Position>)
    | CallRecover(checks: Checks)

  function Step(c: Config, s: Engine, call: Call): Engine {
    match call
    case CallInit => Move(s, READY).0
    case CallStart => Move(s, RUN).0
    case CallEnterSafeMode => Move(s, SAFE_MODE).0
    case CallExitSafeMode => Move(s, RUN).0
    case CallPreTradeCheck(req, ps, equity) => PreTradeCheck(c, s, req, ps, equity).0
    case CallAuthorize(token) => Authorize(s, token).0
    case CallConfirm(id) => Confirm(s, id).0
    case CallRelease(id) => Release(s, id).0
    case CallHalt => Halt(s).0
    case CallReconcile(ours, theirs) => if PositionsAgree(c, ours, theirs) then s else Halt(s).0
    case CallRecover(checks) => Recover(c, s, checks).0
  }

  /** A sequence of calls, behind the states that the log already holds. */
  function Run(c: Config, past: seq<RiskState>, calls: seq<Call>): Engine {
    if calls == [] then Restarted(c, past) else Step(c, Run(c, past, calls[..|calls| - 1]), calls[|calls| - 1])
  }

  /** What an earlier engine leaves behind unless it froze; a fresh log among it. */
  ghost predicate Resumable(past: seq<RiskState>) {
    ValidPath(past) && Current(past) != FROZEN
  }

  // ---- what every state keeps ----

  /** The n-th approval: one request, one token and one reservation, naming each other. */
  ghost predicate PairAt(s: Engine, n: nat) {
    var t, r := K.TokenId(n), L.ReservationId(n);
    && t in s.tokens.issued && r in s.ledger.entries
    && s.tokens.issued[t].reservation_id == r
    && s.tokens.issued[t].request_id == s.ledger.entries[r].request_id
    && s.ledger.entries[r].request_id in s.decisions
    && s.decisions[s.ledger.entries[r].request_id].ticket == Some(Ticket(t, r))
  }

  ghost predicate Recorded(s: Engine, request: Text)
    requires request in s.decisions
  {
    var d := s.decisions[request];
    && d.request_id == request
    && (d.approved <==> d.ticket.Some?)
    && (d.approved ==> exists n :: 1 <= n <= s.tokens.counter && Owns(s, request, n))
  }

  /** The n-th approval was given to this request. */
  ghost predicate Owns(s: Engine, request: Text, n: nat) {
    PairAt(s, n) && s.ledger.entries[L.ReservationId(n)].request_id == request
  }

  ghost predicate Paired(s: Engine) {
    && s.tokens.counter == s.ledger.counter
    && (forall t :: t in s.tokens.issued ==> exists n :: 1 <= n <= s.tokens.counter && t == K.TokenId(n))
    && (forall n :: 1 <= n <= s.tokens.counter ==> PairAt(s, n))
    && (forall r :: r in s.decisions ==> Recorded(s, r))
  }

  ghost predicate TokensGuarded(s: Engine) {
    forall t :: K.Usable(s.tokens, t) ==> Phase(s) == RUN || Phase(s) == SAFE_MODE
  }

  function FailureLimit(c: Config): nat {
    if c.maxRecoveryAttempts < 1 then 1 else c.maxRecoveryAttempts
  }

  ghost predicate FrozenAtLimit(c: Config, s: Engine) {
    && 0 <= s.failures <= FailureLimit(c)
    && (Phase(s) == FROZEN <==> s.failures == FailureLimit(c))
  }

  ghost predicate Sound(c: Config, s: Engine) {
    && L.Sound(s.ledger)
    && s.ledger.total == c.total
    && Paired(s)
    && TokensGuarded(s)
    && ValidPath(s.path)
    && FrozenAtLimit(c, s)
  }

  lemma NewSound(c: Config)
    ensures Sound(c, New(c))
  {
    L.EmptySound(c.total);
  }

  lemma RestartSound(c: Config, past: seq<RiskState>)
    requires Resumable(past)
    ensures Sound(c, Restarted(c, past))
  {
    L.EmptySound(c.total);
  }

  /** Same tickets: what tokens and reservations refer to has not changed. */
  ghost predicate SameTickets(s: Engine, t: Engine) {
    && t.tokens.counter == s.tokens.counter && t.ledger.counter == s.ledger.counter
    && t.tokens.issued.Keys == s.tokens.issued.Keys
    && (forall k :: k in s.tokens.issued ==>
        && t.tokens.issued[k].request_id == s.tokens.issued[k].request_id
        && t.tokens.issued[k].reservation_id == s.tokens.issued[k].reservation_id)
    && t.ledger.entries.Keys == s.ledger.entries.Keys
    && (forall k :: k in s.ledger.entries ==> t.ledger.entries[k].request_id == s.ledger.entries[k].request_id)
  }

  lemma TicketsKeepPaired(s: Engine, t: Engine)
    requires Paired(s) && SameTickets(s, t)
    requires forall r :: r in s.decisions ==> r in t.decisions && t.decisions[r] == s.decisions[r]
    requires forall r :: r in t.decisions && r !in s.decisions ==>
      t.decisions[r].request_id == r && !t.decisions[r].approved && t.decisions[r].ticket.None?
    ensures Paired(t)
  {
    hide L.ReservationId, K.TokenId;
    forall n | 1 <= n <= t.tokens.counter ensures PairAt(t, n) {
      assert PairAt(s, n);
    }
    forall r | r in t.decisions ensures Recorded(t, r) {
      if r in s.decisions {
        assert Recorded(s, r);
        assert forall n :: 1 <= n <= s.tokens.counter && Owns(s, r, n) ==> Owns(t, r, n);
      }
    }
  }

  lemma MoveSound(c: Config, s: Engine, to: RiskState)
    requires Sound(c, s) && to != FROZEN
    requires to == HALT ==> forall t :: !K.Usable(s.tokens, t)
    ensures Sound(c, Move(s, to).0)
  {
    hide L.Sound, Paired, K.Usable, ValidPath;
    if CanTransition(Phase(s), to) {
      ValidPathExtends(s.path, to);
      TicketsKeepPaired(s, Move(s, to).0);
    }
  }

  lemma VoidSound(c: Config, s: Engine)
    requires Sound(c, s)
    ensures var v := s.(tokens := K.InvalidateAll(s.tokens));
      Sound(c, v) && forall t :: !K.Usable(v.tokens, t)
  {
    hide L.Sound, Paired;
    TicketsKeepPaired(s, s.(tokens := K.InvalidateAll(s.tokens)));
  }

  lemma HaltSound(c: Config, s: Engine)
    requires Sound(c, s)
    ensures Sound(c, Halt(s).0)
    ensures forall t :: !K.Usable(Halt(s).0.tokens, t)
  {
    hide L.Sound, Paired, K.Usable, K.InvalidateAll;
    VoidSound(c, s);
    if Phase(s) != FROZEN {
      MoveSound(c, s.(tokens := K.InvalidateAll(s.tokens)), HALT);
    }
  }

  lemma RejectSound(c: Config, s: Engine, request_id: Text, reason: Text)
    requires Sound(c, s) && request_id !in s.decisions
    ensures Sound(c, Reject(s, request_id, reason).0)
  {
    hide L.Sound, Paired, K.Usable;
    TicketsKeepPaired(s, Reject(s, request_id, reason).0);
  }

  /** The next numbers are free. */
  lemma NextFree(s: Engine)
    requires L.Sound(s.ledger) && Paired(s)
    ensures K.TokenId(s.tokens.counter + 1) !in s.tokens.issued
    ensures L.ReservationId(s.ledger.counter + 1) !in s.ledger.entries
  {
    hide L.ReservationId, K.TokenId, L.Held;
    L.ReserveKeeps(s.ledger, [], 1.0);
    var t := K.TokenId(s.tokens.counter + 1);
    if t in s.tokens.issued {
      var n :| 1 <= n <= s.tokens.counter && t == K.TokenId(n);
      K.TokenIdInjective(n, s.tokens.counter + 1);
    }
  }

  lemma ApprovePairs(s: Engine, req: TradeRequest)
    requires L.Sound(s.ledger) && Paired(s) && req.request_id !in s.decisions
    requires L.Reserve(s.ledger, req.request_id, req.notional).1.Some?
    ensures Paired(Approve(s, req).0)
  {
    hide L.ReservationId, K.TokenId, L.Held, L.Sound;
    NextFree(s);
    var m := s.tokens.counter + 1;
    var a := Approve(s, req).0;
    assert a.tokens.issued == s.tokens.issued[K.TokenId(m) := K.Token(req.request_id, L.ReservationId(m), false, true)];
    forall n | 1 <= n <= m ensures PairAt(a, n) {
      if n < m {
        assert PairAt(s, n);
        OtherIds(n, m);
      }
    }
    forall r | r in a.decisions ensures Recorded(a, r) {
      if r != req.request_id {
        assert Recorded(s, r);
        assert forall n :: 1 <= n < m && Owns(s, r, n) ==> Owns(a, r, n);
      } else {
        assert Owns(a, r, m);
      }
    }
    forall t | t in a.tokens.issued ensures exists n :: 1 <= n <= m && t == K.TokenId(n) {
    }
  }

  lemma OtherIds(n: nat, m: nat)
    requires n != m
    ensures K.TokenId(n) != K.TokenId(m) && L.ReservationId(n) != L.ReservationId(m)
  {
    if K.TokenId(n) == K.TokenId(m) {
      K.TokenIdInjective(n, m);
    }
    if L.ReservationId(n) == L.ReservationId(m) {
      L.ReservationIdInjective(n, m);
    }
  }

  lemma ApproveSound(c: Config, s: Engine, req: TradeRequest)
    requires Sound(c, s) && req.request_id !in s.decisions && Phase(s) == RUN
    ensures Sound(c, Approve(s, req).0)
  {
    hide Paired, L.Sound;
    L.ReserveKeeps(s.ledger, req.request_id, req.notional);
    if L.Reserve(s.ledger, req.request_id, req.notional).1.None? {
      RejectSound(c, s, req.request_id, Lit("insufficient budget"));
    } else {
      ApprovePairs(s, req);
    }
  }

  lemma PreTradeSound(c: Config, s: Engine, req: TradeRequest, ps: seq<Position>, equity: Equity)
    requires Sound(c, s)
    ensures Sound(c, PreTradeCheck(c, s, req, ps, equity).0)
  {
    hide Sound, Exposure, Drawdown, Lit, Halt, Approve, Reject, Name;
    if req.request_id !in s.decisions {
      if Phase(s) != RUN {
        RejectSound(c, s, req.request_id, Lit("not RUN (state=") + Name(Phase(s)) + Lit(")"));
      } else if Drawdown(equity) > c.limits.maxDrawdownPct {
        HaltSound(c, s);
        HaltKeepsRest(s);
        RejectSound(c, Halt(s).0, req.request_id, Lit("drawdown breached \U{2192} HALT"));
      } else {
        match ExposureProblem(ps, req.symbol, req.notional, c.limits)
        case Some(reason) => RejectSound(c, s, req.request_id, reason);
        case None => ApproveSound(c, s, req);
      }
    }
  }

  lemma HaltKeepsRest(s: Engine)
    ensures Halt(s).0.decisions == s.decisions && Halt(s).0.ledger == s.ledger
  {
  }

  lemma AuthorizeSound(c: Config, s: Engine, token: Text)
    requires Sound(c, s)
    ensures Sound(c, Authorize(s, token).0)
  {
    hide L.Sound, Paired;
    var a := Authorize(s, token).0;
    assert forall t :: K.Usable(a.tokens, t) ==> K.Usable(s.tokens, t);
    TicketsKeepPaired(s, a);
  }

  lemma LedgerSound(c: Config, s: Engine, reservation: Text)
    requires Sound(c, s)
    ensures Sound(c, Confirm(s, reservation).0) && Sound(c, Release(s, reservation).0)
  {
    hide L.Sound, Paired, K.Usable;
    L.ConsumeKeeps(s.ledger, reservation);
    L.ReleaseKeeps(s.ledger, reservation);
    TicketsKeepPaired(s, Confirm(s, reservation).0);
    TicketsKeepPaired(s, Release(s, reservation).0);
  }

  lemma PassSound(c: Config, r: Engine)
    requires Sound(c, r) && Phase(r) == RECOVERY
    ensures Sound(c, Move(r, READY).0.(failures := 0))
  {
    hide L.Sound, Paired, K.Usable, ValidPath;
    var t := Move(r, READY).0.(failures := 0);
    TicketsKeepPaired(r, t);
    ValidPathExtends(r.path, READY);
  }

  lemma FailSound(c: Config, r: Engine)
    requires Sound(c, r) && Phase(r) == RECOVERY
    ensures Sound(c, FailChecks(c, r))
  {
    hide L.Sound, Paired, K.Usable, ValidPath;
    var t := FailChecks(c, r);
    TicketsKeepPaired(r, t);
    ValidPathExtends(r.path, HALT);
    ValidPathExtends(r.path, FROZEN);
  }

  lemma RecoverSound(c: Config, s: Engine, checks: Checks)
    requires Sound(c, s)
    ensures Sound(c, Recover(c, s, checks).0)
  {
    hide Sound, FailChecks;
    if CanTransition(Phase(s), RECOVERY) {
      var r := Move(s, RECOVERY).0;
      MoveSound(c, s, RECOVERY);
      PassSound(c, r);
      FailSound(c, r);
    }
  }

  lemma StepSound(c: Config, s: Engine, call: Call)
    requires Sound(c, s)
    ensures Sound(c, Step(c, s, call))
  {
    hide Sound, Move, PreTradeCheck, Authorize, Confirm, Release, Halt, Recover;
    match call
    case CallInit => MoveSound(c, s, READY);
    case CallStart => MoveSound(c, s, RUN);
    case CallEnterSafeMode => MoveSound(c, s, SAFE_MODE);
    case CallExitSafeMode => MoveSound(c, s, RUN);
    case CallPreTradeCheck(req, ps, equity) => PreTradeSound(c, s, req, ps, equity);
    case CallAuthorize(token) => AuthorizeSound(c, s, token);
    case CallConfirm(id) => LedgerSound(c, s, id);
    case CallRelease(id) => LedgerSound(c, s, id);
    case CallHalt => HaltSound(c, s);
    case CallReconcile(ours, theirs) => HaltSound(c, s);
    case CallRecover(checks) => RecoverSound(c, s, checks);
  }

  /** Ledger, tickets, token guard, valid path and recovery limit hold after every run,
      of a fresh engine and of one behind an earlier log. */
  lemma {:induction false} RunSound(c: Config, past: seq<RiskState>, calls: seq<Call>)
    requires Resumable(past)
    ensures Sound(c, Run(c, past, calls))
  {
    hide Sound, Step, Resumable, Restarted;
    if calls == [] {
      RestartSound(c, past);
    } else {
      RunSound(c, past, calls[..|calls| - 1]);
      StepSound(c, Run(c, past, calls[..|calls| - 1]), calls[|calls| - 1]);
    }
  }
}
