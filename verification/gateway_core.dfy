/** Gateways that share one risk engine, on values: every call is cut at its await, and
    calls of any number of gateways, finished submissions and risk calls interleave freely. */
module GatewayCore {
  import opened Texts
  import opened RiskMachine
  import C = RiskCore
  import R = RiskRuns
  import K = TokenLedgers
  import L = Ledgers

  datatype Admission = AlreadyDone | KillSwitch | NoToken | Admitted

  /** The gate at the head of both entry points; admission uses the token. */
  function Gate(done: set<Text>, risk: C.Engine, order: Text, token: Text, killed: bool): (Admission, C.Engine) {
    if order in done then (AlreadyDone, risk)
    else if killed then (KillSwitch, risk)
    else
      var (after, ok) := C.Authorize(risk, token);
      if ok then (Admitted, after) else (NoToken, after)
  }

  datatype Progress = InFlight | Completed | Failed

  /** One call of an exchange adapter. */
  datatype AdapterCall = AdapterCall(gateway: nat, order: Text, token: Text, progress: Progress)

  /** `async` are the gateways that were given an asynchronous adapter. */
  datatype World = World(risk: C.Engine, async: set<nat>, done: map<nat, set<Text>>, calls: seq<AdapterCall>)

  function Done(w: World, g: nat): set<Text> {
    if g in w.done then w.done[g] else {}
  }

  function MarkDone(w: World, g: nat, order: Text): World {
    w.(done := w.done[g := Done(w, g) + {order}])
  }

  datatype Action =
    | Risk(call: C.Call)
    | Execute(gateway: nat, order: Text, token: Text, killed: bool, fills: bool)
    | Start(gateway: nat, order: Text, token: Text, killed: bool)
    | Finish(index: nat, acknowledged: bool)

  /** `execute`: gate, adapter call and bookkeeping in one piece; `fills` is false when
      the adapter throws. */
  function ExecuteStep(w: World, g: nat, order: Text, token: Text, killed: bool, fills: bool): World {
    var (admission, risk) := Gate(Done(w, g), w.risk, order, token, killed);
    if admission != Admitted then w.(risk := risk)
    else
      var called := w.(risk := risk, calls := w.calls + [AdapterCall(g, order, token, if fills then Completed else Failed)]);
      if fills then MarkDone(called, g, order) else called
  }

  /** `executeAsync` up to its await. */
  function StartStep(w: World, g: nat, order: Text, token: Text, killed: bool): World {
    var (admission, risk) := Gate(Done(w, g), w.risk, order, token, killed);
    if admission != Admitted || g !in w.async then w.(risk := risk)
    else w.(risk := risk, calls := w.calls + [AdapterCall(g, order, token, InFlight)])
  }

  /** `executeAsync` behind its await: the submission came back or threw. */
  function FinishStep(w: World, i: nat, acknowledged: bool): World {
    if i >= |w.calls| || w.calls[i].progress != InFlight then w
    else
      var call := w.calls[i];
      var ended := w.(calls := w.calls[i := call.(progress := if acknowledged then Completed else Failed)]);
      if acknowledged then MarkDone(ended, call.gateway, call.order) else ended
  }

  function Step(c: C.Config, w: World, a: Action): World {
    match a
    case Risk(call) => w.(risk := C.Step(c, w.risk, call))
    case Execute(g, order, token, killed, fills) => ExecuteStep(w, g, order, token, killed, fills)
    case Start(g, order, token, killed) => StartStep(w, g, order, token, killed)
    case Finish(i, acknowledged) => FinishStep(w, i, acknowledged)
  }

  /** An interleaving over one risk engine, behind the states that its log already holds. */
  function Run(c: C.Config, past: seq<RiskState>, async: set<nat>, actions: seq<Action>): World {
    if actions == [] then World(C.Restarted(c, past), async, map[], [])
    else Step(c, Run(c, past, async, actions[..|actions| - 1]), actions[|actions| - 1])
  }

  // ---- what every interleaving keeps ----

  /** The orders a gateway completed, by its record of adapter calls. */
  function CompletedOrders(calls: seq<AdapterCall>, g: nat): set<Text> {
    set x | x in calls && x.gateway == g && x.progress == Completed :: x.order
  }

  ghost predicate Sound(c: C.Config, w: World) {
    && C.Sound(c, w.risk)
    && (forall i :: 0 <= i < |w.calls| ==> R.Spent(w.risk, w.calls[i].token))
    && (forall i, j :: 0 <= i < j < |w.calls| ==> w.calls[i].token != w.calls[j].token)
    && (forall g :: Done(w, g) == CompletedOrders(w.calls, g))
  }

  /** Later worlds only add calls and end those in flight. */
  ghost predicate Extends(a: World, b: World) {
    && R.Grows(a.risk, b.risk)
    && b.async == a.async
    && |a.calls| <= |b.calls|
    && (forall i :: 0 <= i < |a.calls| ==>
          || b.calls[i] == a.calls[i]
          || (a.calls[i].progress == InFlight && b.calls[i].(progress := InFlight) == a.calls[i]))
  }

  /** Whether an action calls an adapter, for this order on this gateway. */
  predicate Reaches(w: World, a: Action) {
    match a
    case Execute(g, order, token, killed, _) => order !in Done(w, g) && !killed && K.Usable(w.risk.tokens, token)
    case Start(g, order, token, killed) =>
      order !in Done(w, g) && !killed && K.Usable(w.risk.tokens, token) && g in w.async
    case _ => false
  }

  lemma RiskCallGrows(c: C.Config, w: World, call: C.Call)
    requires Sound(c, w)
    ensures Sound(c, w.(risk := C.Step(c, w.risk, call))) && Extends(w, w.(risk := C.Step(c, w.risk, call)))
  {
    hide C.Sound, R.Grows, R.Spent, C.Step;
    C.StepSound(c, w.risk, call);
    R.StepGrows(c, w.risk, call);
    SpentKept(w.risk, C.Step(c, w.risk, call), w.calls);
  }

  lemma SpentKept(a: C.Engine, b: C.Engine, calls: seq<AdapterCall>)
    requires R.Grows(a, b)
    requires forall i :: 0 <= i < |calls| ==> R.Spent(a, calls[i].token)
    ensures forall i :: 0 <= i < |calls| ==> R.Spent(b, calls[i].token)
  {
    hide R.Spent;
  }

  /** The gate leaves the engine sound; admission needs a usable token and spends it. */
  lemma GateSound(c: C.Config, done: set<Text>, risk: C.Engine, order: Text, token: Text, killed: bool)
    requires C.Sound(c, risk)
    ensures var (admission, after) := Gate(done, risk, order, token, killed);
      && C.Sound(c, after) && R.Grows(risk, after)
      && (admission == AlreadyDone <==> order in done)
      && (admission == KillSwitch <==> order !in done && killed)
      && (admission == Admitted <==> order !in done && !killed && K.Usable(risk.tokens, token))
      && (admission != Admitted ==> after == risk)
      && (admission == Admitted ==> R.Spent(after, token) && !R.Spent(risk, token))
  {
    hide C.Sound, R.Grows;
    C.AuthorizeSound(c, risk, token);
    R.StepGrows(c, risk, C.CallAuthorize(token));
    R.SelfGrows(risk);
  }

  lemma {:induction false} CompletedAppend(calls: seq<AdapterCall>, x: AdapterCall, g: nat)
    ensures CompletedOrders(calls + [x], g)
         == CompletedOrders(calls, g) + if x.gateway == g && x.progress == Completed then {x.order} else {}
  {
    var next := calls + [x];
    assert forall y :: y in next <==> y in calls || y == x;
  }

  lemma CompletedEnd(calls: seq<AdapterCall>, i: nat, p: Progress, g: nat)
    requires i < |calls| && calls[i].progress == InFlight && p != InFlight
    ensures CompletedOrders(calls[i := calls[i].(progress := p)], g)
         == CompletedOrders(calls, g) + if calls[i].gateway == g && p == Completed then {calls[i].order} else {}
  {
    var next := calls[i := calls[i].(progress := p)];
    forall y | y in next ensures y in calls || y == calls[i].(progress := p) {
      var k :| 0 <= k < |next| && next[k] == y;
    }
    forall y | y in calls && y.progress == Completed ensures y in next {
      var k :| 0 <= k < |calls| && calls[k] == y;
      assert next[k] == y;
    }
    assert next[i] in next;
  }

  /** Adding one call whose token was just spent. */
  lemma CallAdded(c: C.Config, w: World, risk: C.Engine, x: AdapterCall)
    requires Sound(c, w) && C.Sound(c, risk) && R.Grows(w.risk, risk)
    requires R.Spent(risk, x.token) && !R.Spent(w.risk, x.token)
    ensures var called := w.(risk := risk, calls := w.calls + [x]);
      var next := if x.progress == Completed then MarkDone(called, x.gateway, x.order) else called;
      Sound(c, next) && Extends(w, next)
  {
    hide C.Sound, R.Grows, R.Spent, CompletedOrders;
    SpentKept(w.risk, risk, w.calls);
    forall g ensures CompletedOrders(w.calls + [x], g)
      == CompletedOrders(w.calls, g) + if x.gateway == g && x.progress == Completed then {x.order} else {}
    {
      CompletedAppend(w.calls, x, g);
    }
  }

  lemma ExecuteSound(c: C.Config, w: World, g: nat, order: Text, token: Text, killed: bool, fills: bool)
    requires Sound(c, w)
    ensures var next := ExecuteStep(w, g, order, token, killed, fills);
      Sound(c, next) && Extends(w, next)
      && |next.calls| == |w.calls| + if Reaches(w, Execute(g, order, token, killed, fills)) then 1 else 0
  {
    hide C.Sound, R.Grows, R.Spent, CompletedOrders, Gate, K.Usable;
    GateSound(c, Done(w, g), w.risk, order, token, killed);
    var (admission, risk) := Gate(Done(w, g), w.risk, order, token, killed);
    SpentKept(w.risk, risk, w.calls);
    if admission == Admitted {
      CallAdded(c, w, risk, AdapterCall(g, order, token, if fills then Completed else Failed));
    }
  }

  lemma StartSound(c: C.Config, w: World, g: nat, order: Text, token: Text, killed: bool)
    requires Sound(c, w)
    ensures var next := StartStep(w, g, order, token, killed);
      Sound(c, next) && Extends(w, next)
      && |next.calls| == |w.calls| + if Reaches(w, Start(g, order, token, killed)) then 1 else 0
  {
    hide C.Sound, R.Grows, R.Spent, CompletedOrders, Gate, K.Usable;
    GateSound(c, Done(w, g), w.risk, order, token, killed);
    var (admission, risk) := Gate(Done(w, g), w.risk, order, token, killed);
    SpentKept(w.risk, risk, w.calls);
    if admission == Admitted && g in w.async {
      CallAdded(c, w, risk, AdapterCall(g, order, token, InFlight));
    }
  }

  lemma FinishSound(c: C.Config, w: World, i: nat, acknowledged: bool)
    requires Sound(c, w)
    ensures var next := FinishStep(w, i, acknowledged);
      Sound(c, next) && Extends(w, next) && |next.calls| == |w.calls|
  {
    hide C.Sound, R.Grows, R.Spent, CompletedOrders;
    R.SelfGrows(w.risk);
    if i < |w.calls| && w.calls[i].progress == InFlight {
      var p := if acknowledged then Completed else Failed;
      forall g ensures CompletedOrders(w.calls[i := w.calls[i].(progress := p)], g)
        == CompletedOrders(w.calls, g) + if w.calls[i].gateway == g && p == Completed then {w.calls[i].order} else {}
      {
        CompletedEnd(w.calls, i, p, g);
      }
      var next := FinishStep(w, i, acknowledged);
      assert forall k :: 0 <= k < |w.calls| ==> next.calls[k].token == w.calls[k].token;
      forall g ensures Done(next, g) == CompletedOrders(next.calls, g) {
        assert Done(w, g) == CompletedOrders(w.calls, g);
      }
    }
  }

  /** Every action keeps the world sound, only adds to it, and calls an adapter exactly
      when the gate admits it. */
  lemma StepSound(c: C.Config, w: World, a: Action)
    requires Sound(c, w)
    ensures Sound(c, Step(c, w, a)) && Extends(w, Step(c, w, a))
    ensures |Step(c, w, a).calls| == |w.calls| + if Reaches(w, a) then 1 else 0
  {
    hide Sound, Extends, ExecuteStep, StartStep, FinishStep, C.Step, Reaches;
    match a
    case Risk(call) => RiskCallGrows(c, w, call); NoReach(w, a);
    case Execute(g, order, token, killed, fills) => ExecuteSound(c, w, g, order, token, killed, fills);
    case Start(g, order, token, killed) => StartSound(c, w, g, order, token, killed);
    case Finish(i, acknowledged) => FinishSound(c, w, i, acknowledged); NoReach(w, a);
  }

  lemma NoReach(w: World, a: Action)
    requires a.Risk? || a.Finish?
    ensures !Reaches(w, a)
  {
  }

  lemma {:induction false} RunSound(c: C.Config, past: seq<RiskState>, async: set<nat>, actions: seq<Action>)
    requires C.Resumable(past)
    ensures Sound(c, Run(c, past, async, actions))
  {
    hide Step, C.Sound, R.Spent;
    if actions == [] {
      C.RestartSound(c, past);
    } else {
      hide Sound;
      RunSound(c, past, async, actions[..|actions| - 1]);
      StepSound(c, Run(c, past, async, actions[..|actions| - 1]), actions[|actions| - 1]);
    }
  }

  lemma ExtendsTransitive(a: World, b: World, c: World)
    requires Extends(a, b) && Extends(b, c)
    ensures Extends(a, c)
  {
    hide R.Grows;
    R.GrowsTransitive(a.risk, b.risk, c.risk);
  }

  lemma {:induction false} RunExtends(c: C.Config, past: seq<RiskState>, async: set<nat>, actions: seq<Action>, n: nat)
    requires C.Resumable(past)
    requires n <= |actions|
    ensures Extends(Run(c, past, async, actions[..n]), Run(c, past, async, actions))
    decreases |actions|
  {
    hide Sound, Step, Extends;
    if n == |actions| {
      assert actions[..n] == actions;
      SelfExtends(Run(c, past, async, actions));
    } else {
      var front := actions[..|actions| - 1];
      RunExtends(c, past, async, front, n);
      assert front[..n] == actions[..n];
      RunSound(c, past, async, front);
      StepSound(c, Run(c, past, async, front), actions[|actions| - 1]);
      ExtendsTransitive(Run(c, past, async, actions[..n]), Run(c, past, async, front), Run(c, past, async, actions));
    }
  }

  lemma SelfExtends(w: World)
    ensures Extends(w, w)
  {
    R.SelfGrows(w.risk);
  }

  // ---- the promises of the gateway ----

  /** No adapter is called without an approval of its own: in every interleaving each
      call has a token no other call has, issued to an approved request. */
  lemma OneTokenOneCall(c: C.Config, past: seq<RiskState>, async: set<nat>, actions: seq<Action>, i: nat)
    requires C.Resumable(past)
    requires i < |Run(c, past, async, actions).calls|
    ensures var w := Run(c, past, async, actions);
      var t := w.calls[i].token;
      && (forall j :: 0 <= j < |w.calls| && w.calls[j].token == t ==> j == i)
      && t in w.risk.tokens.issued
      && w.risk.tokens.issued[t].request_id in w.risk.decisions
      && w.risk.decisions[w.risk.tokens.issued[t].request_id].approved
  {
    hide C.Sound;
    RunSound(c, past, async, actions);
    var w := Run(c, past, async, actions);
    R.EveryTokenApproved(c, w.risk, w.calls[i].token);
  }

  /** Once a call for an order has ended without throwing, no action that starts later
      calls an adapter for that order on that gateway. */
  lemma CompletedIsFinal(c: C.Config, past: seq<RiskState>, async: set<nat>, actions: seq<Action>, n: nat, i: nat, j: nat)
    requires C.Resumable(past)
    requires n <= |actions|
    requires i < |Run(c, past, async, actions[..n]).calls| <= j < |Run(c, past, async, actions).calls|
    requires Run(c, past, async, actions[..n]).calls[i].progress == Completed
    ensures var old_ := Run(c, past, async, actions[..n]).calls[i];
      var new_ := Run(c, past, async, actions).calls[j];
      !(new_.gateway == old_.gateway && new_.order == old_.order)
    decreases |actions|
  {
    hide C.Sound, R.Grows, R.Spent, Step;
    assert actions[..|actions|] == actions;
    if n < |actions| {
      var front := actions[..|actions| - 1];
      assert front[..n] == actions[..n];
      var a, w := actions[|actions| - 1], Run(c, past, async, front);
      RunSound(c, past, async, front);
      StepSound(c, w, a);
      RunExtends(c, past, async, front, n);
      if j < |w.calls| {
        CompletedIsFinal(c, past, async, front, n, i, j);
      } else {
        assert w.calls[i] in w.calls;
        NewCall(c, w, a, j);
      }
    }
  }

  /** The call a step adds is for the order the step names, which was not done. */
  lemma NewCall(c: C.Config, w: World, a: Action, j: nat)
    requires |w.calls| <= j < |Step(c, w, a).calls|
    ensures var x := Step(c, w, a).calls[j];
      && Reaches(w, a) && x.order !in Done(w, x.gateway)
      && (a.Execute? || a.Start?) && x.gateway == a.gateway && x.order == a.order && x.token == a.token
  {
    hide C.Step;
  }

  /** Exactly when starting an order calls the adapter although the gateway called it for
      the same order before: while every earlier call for it is in flight or has failed. */
  lemma AgainExactly(c: C.Config, past: seq<RiskState>, async: set<nat>, actions: seq<Action>, g: nat, order: Text, token: Text)
    requires C.Resumable(past)
    requires g in async && K.Usable(Run(c, past, async, actions).risk.tokens, token)
    ensures var w := Run(c, past, async, actions);
      Reaches(w, Start(g, order, token, false))
      <==> forall i :: 0 <= i < |w.calls| && w.calls[i].gateway == g && w.calls[i].order == order ==>
             w.calls[i].progress != Completed
  {
    hide C.Sound, R.Spent;
    RunSound(c, past, async, actions);
    AsyncKept(c, past, async, actions);
    var w := Run(c, past, async, actions);
    assert Done(w, g) == CompletedOrders(w.calls, g);
  }

  lemma AsyncKept(c: C.Config, past: seq<RiskState>, async: set<nat>, actions: seq<Action>)
    requires C.Resumable(past)
    ensures Run(c, past, async, actions).async == async
  {
    RunExtends(c, past, async, actions, 0);
    assert actions[..0] == [];
  }

  /** Over a log whose machine froze no adapter is ever called. */
  lemma {:induction false} FrozenCallsNothing(c: C.Config, past: seq<RiskState>, async: set<nat>, actions: seq<Action>)
    requires Current(past) == FROZEN
    ensures var w := Run(c, past, async, actions);
      && w.calls == [] && C.Phase(w.risk) == FROZEN
      && w.risk.tokens == K.Tokens(0, map[]) && w.risk.ledger == L.Empty(c.total)
      && forall r :: r in w.risk.decisions ==> !w.risk.decisions[r].approved
  {
    hide C.Step;
    if actions != [] {
      var front, a := actions[..|actions| - 1], actions[|actions| - 1];
      FrozenCallsNothing(c, past, async, front);
      if a.Risk? {
        R.FrozenStep(c, Run(c, past, async, front).risk, a.call);
      }
    }
  }

  // ---- overlapping submissions of one order ----

  const ROOMY := C.Limits(10.0, 10.0, 1.0)

  function Small(id: string): C.Call {
    C.CallPreTradeCheck(C.TradeRequest(Lit(id), Lit("KRW-BTC"), 1.0), [], C.Equity(0.0, 0.0))
  }

  /** Two approvals, then two submissions of one order before either has come back. */
  const OVERLAP: seq<Action> := [
    Risk(C.CallInit), Risk(C.CallStart), Risk(Small("a")), Risk(Small("b")),
    Start(0, Lit("order"), K.TokenId(1), false),
    Start(0, Lit("order"), K.TokenId(2), false)]

  lemma SmallApproved(c: C.Config, s: C.Engine, id: string)
    requires c.limits == ROOMY && C.Phase(s) == RUN && Lit(id) !in s.decisions
    requires s.ledger.total == 10.0 && s.ledger.reserved + s.ledger.consumed <= 9.0
    ensures C.Step(c, s, Small(id)) == C.Approve(s, C.TradeRequest(Lit(id), Lit("KRW-BTC"), 1.0)).0
    ensures L.Reserve(s.ledger, Lit(id), 1.0).1.Some?
  {
    hide C.Approve, Lit;
    assert C.Exposure([]) == 0.0;
  }

  /** The record of completed orders does not keep one gateway from submitting an order
      twice: two submissions that overlap both reach the adapter. */
  lemma OverlapSubmitsTwice(number: real -> C.Printable)
    ensures var w := Run(C.Config(10.0, ROOMY, 3, number), [], {0}, OVERLAP);
      w.calls == [AdapterCall(0, Lit("order"), K.TokenId(1), InFlight), AdapterCall(0, Lit("order"), K.TokenId(2), InFlight)]
  {
    hide Lit, C.Step, L.ReservationId, K.TokenId;
    var c := C.Config(10.0, ROOMY, 3, number);
    var w4 := World(TwoApproved(c), {0}, map[], []);
    ApprovedTwice(c);
    K.TokenIdInjectiveUnless(1, 2);
    RunsTo(c);
    var w5 := Step(c, w4, OVERLAP[4]);
    var w6 := Step(c, w5, OVERLAP[5]);
    assert OVERLAP[..6] == OVERLAP && OVERLAP[..6][..5] == OVERLAP[..5] && OVERLAP[..5][..4] == OVERLAP[..4];
  }

  function TwoApproved(c: C.Config): C.Engine {
    C.Step(c, C.Step(c, C.Step(c, C.Step(c, C.New(c), C.CallInit), C.CallStart), Small("a")), Small("b"))
  }

  lemma RunsTo(c: C.Config)
    ensures Run(c, [], {0}, OVERLAP[..4]) == World(TwoApproved(c), {0}, map[], [])
  {
    hide C.Step, C.New, Small, Run;
    assert OVERLAP[..0] == [];
    RunStep(c, [], {0}, OVERLAP, 0);
    RunStep(c, [], {0}, OVERLAP, 1);
    RunStep(c, [], {0}, OVERLAP, 2);
    RunStep(c, [], {0}, OVERLAP, 3);
    RunEmpty(c, {0});
  }

  lemma RunEmpty(c: C.Config, async: set<nat>)
    ensures Run(c, [], async, []) == World(C.New(c), async, map[], [])
  {
  }

  lemma RunStep(c: C.Config, past: seq<RiskState>, async: set<nat>, actions: seq<Action>, n: nat)
    requires n < |actions|
    ensures Run(c, past, async, actions[..n + 1]) == Step(c, Run(c, past, async, actions[..n]), actions[n])
  {
    hide Step;
    assert actions[..n + 1][..n] == actions[..n];
  }

  lemma ApprovedTwice(c: C.Config)
    requires c.total == 10.0 && c.limits == ROOMY
    ensures K.Usable(TwoApproved(c).tokens, K.TokenId(1)) && K.Usable(TwoApproved(c).tokens, K.TokenId(2))
  {
    hide Small, L.ReservationId, K.TokenId, C.Step;
    var s := C.Step(c, C.Step(c, C.New(c), C.CallInit), C.CallStart);
    StartedPath(c);
    SmallApproved(c, s, "a");
    var t := C.Step(c, s, Small("a"));
    FirstApproved(s, C.TradeRequest(Lit("a"), Lit("KRW-BTC"), 1.0));
    assert Lit("a")[0] != Lit("b")[0];
    SmallApproved(c, t, "b");
    SecondApproved(t, C.TradeRequest(Lit("b"), Lit("KRW-BTC"), 1.0));
  }

  lemma FirstApproved(s: C.Engine, req: C.TradeRequest)
    requires L.Reserve(s.ledger, req.request_id, req.notional).1.Some? && s.tokens == K.Tokens(0, map[])
    ensures var t := C.Approve(s, req).0;
      && t.tokens == K.Tokens(1, map[K.TokenId(1) := K.Token(req.request_id, L.ReservationId(s.ledger.counter + 1), false, true)])
      && t.path == s.path && t.decisions.Keys == s.decisions.Keys + {req.request_id}
      && t.ledger.total == s.ledger.total && t.ledger.consumed == s.ledger.consumed
      && t.ledger.reserved == s.ledger.reserved + req.notional
  {
    hide L.ReservationId, K.TokenId, Lit;
  }

  lemma SecondApproved(s: C.Engine, req: C.TradeRequest)
    requires L.Reserve(s.ledger, req.request_id, req.notional).1.Some?
    requires s.tokens.counter == 1 && K.Usable(s.tokens, K.TokenId(1))
    ensures K.Usable(C.Approve(s, req).0.tokens, K.TokenId(1)) && K.Usable(C.Approve(s, req).0.tokens, K.TokenId(2))
  {
    hide L.ReservationId, K.TokenId, Lit;
    K.TokenIdInjectiveUnless(1, 2);
  }

  lemma StartedPath(c: C.Config)
    ensures C.Step(c, C.Step(c, C.New(c), C.CallInit), C.CallStart) == C.New(c).(path := [READY, RUN])
  {
    assert [] + [READY] == [READY] && [READY] + [RUN] == [READY, RUN];
  }
}
