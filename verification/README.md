# Genesis trading core: a verified model

This project models the deterministic core of the trading system as step machines and
functions over exact numbers, and proves what holds over every input and every run.

Code that computes values is written as functions; objects that change their fields are
classes with the same fields, whose methods are proved against specification functions on
values; the properties are lemmas about those functions and about whole runs of them.

| modules | what they model |
|---|---|
| `Texts`, `Options`, `Sorting`, `Sequences`, `Sums` | strings of UTF-16 code units, the stable sort behind every `.sort(compare)`, `filter`/`map`, finite sums |
| `CanonicalJson`, `JsonReader`, `CanonicalForm` | the canonical printer, a reader that proves it exact, and the form of what it prints |
| `EventLog`, `Transitions`, `Projections`, `Replay`, `RecordedTexts` | the hash-chained log, states and decisions derived from it, replay sessions, and what hashed texts say |
| `Ledgers`, `TokenLedgers`, `RiskMachine`, `RiskCore`, `RiskRuns`, `PositionReports` and the classes `RiskBudgets`, `ApprovalTokens`, `RiskEngines` | the risk engine |
| `GatewayCore`, `ExecutionGateways`, `LoggedEvents` | the execution gateway, cut at its `await`, and what the trading events say |
| `FillLedgers`, `FillBuffers`, `Reconciliation`, `ExecutionReconcilers`, `PaperBooks`, `PaperPortfolios`, `SessionCore`, `PaperSessions` | fills, reconciliation, portfolio, and the paper session that joins them |
| `FeatureDag`, `RawStores`, `Quality`, `FeatureCompute`, `FeatureContexts` | the feature store |
| `RateLimiters`, `Backfill`, `Candles`, `WriteBehind` | the data layer |
| `Correlation`, `Optimizer`, `Indicators` | portfolio and indicator arithmetic |

Conventions. SHA-256 is a parameter, any function to texts of 64 characters; where a
collision is the only alternative, the lemma names two different texts that were really
hashed. Numbers are exact reals or integers; the square root is a parameter. Clock
readings, the kill switch, what an exchange adapter answers, market decisions and prices
are inputs of the calls. An exception is a `false` or `None` result beside the state that
it leaves behind. JSON strings and numbers follow sections 4 to 7 of RFC 8259, and number
texts follow section 6.1.6.1.20 of ECMA-262.

Check the project with `dafny verify dfyconfig.toml`.

## Where the code does less than its comments or callers may expect

Each point is proved by saying exactly when it happens, some beside a concrete run.

- `executeAsync` marks an order done only behind its `await`, so two overlapping calls for
  one order both reach the adapter (`GatewayCore.OverlapSubmitsTwice`); it happens exactly
  while no earlier call for that order has completed (`GatewayCore.AgainExactly`).
- `emergencyHalt` voids all tokens and then throws in INIT, READY and HALT
  (`RiskRuns.HaltThrows`).
- `init` also ends a recovery whose checks threw, which leaves the machine in RECOVERY, and
  `start` also leaves SAFE_MODE, as `exitSafeMode` also starts from READY
  (`RiskRuns.PhaseAfter`).
- A reconciliation gives back consumed budget exactly when the order is new to the
  reconciler, nothing counts as filled, and its reservation was already consumed
  (`Reconciliation.ConsumedDropsExactly`). `runPaperCycle` uses a fresh reconciler each
  time, so taking a filled order a second time under one number does that
  (`SessionCore.SameNumberReleases`); a cycle does it exactly when its number was approved
  before, that reservation is consumed and nothing fills now
  (`SessionCore.CycleDropsExactly`). `runPaperSession` numbers its cycles and is safe.
- A plan of several parts that exceed the order makes a position cost more than the budget
  counts as consumed (`SessionCore.OversizedOverspends`), exactly then
  (`SessionCore.OutgrowsExactly`).
- Clearing an order's fills forgets its trade ids, so a trade redelivered afterwards counts
  again (`FillLedgers.ClearedExactly`).
- A cached feature goes stale when a record lands that a feature of an earlier plan reads:
  known by the asked time, of the asked symbol and of a kind the feature takes. Whatever the
  features compute, a session never shows its cache exactly when no such record lands and no
  two symbols it asks about share a key (`FeatureCompute.NeverShowsExactly`; a run with such
  a record is `FeatureCompute.LateRecordStale`).
- A cache key names a single question exactly when neither the feature's id nor its version
  has an at-sign and neither the version nor the symbol has a bar
  (`FeatureCompute.KeyNamesOneExactly`); when a second symbol can share it is settled by
  `FeatureCompute.SymbolsShareExactly`, and a pair that does is `FeatureCompute.BarsCollide`.
- A backfill request that waited takes no token, so the loop can send twice the configured
  rate (`RateLimiters.WaitingTakesNoToken` is such a run), and never more than that
  (`RateLimiters.LoopWithinTwice`). A stretch in which nothing but the last request waited
  keeps the rate (`RateLimiters.WaitlessKeepsRate`); a loop that loses no time exceeds it
  exactly when it makes more requests than a limit that rate and burst determine
  (`RateLimiters.LoopKeepsRateExactly`), which up to a thousand requests a second means
  exactly when a request before the last one had to wait (`RateLimiters.WaitBreaksRate`).
- `pendingCount` leaves out a batch that is being written, although its comment counts
  every record that is not confirmed (`WriteBehind.PendingCountExactly`).
- Seeking does not reopen a finished replay session (`Replay.FinishedMayBeBehind` is such a
  run). A seek leaves events to apply exactly when it does not find the last one
  (`Replay.SeekLeavesExactly`); a session that never sought is finished only at the end
  (`Replay.FinishedIsDone`), and one is finished short of the end exactly when it has sought
  since and not stepped far enough (`Replay.FinishedBehindExactly`).
- The hash chain covers what a payload means as JSON: exchanging one for another of the same
  meaning, such as null for a number that is not finite, passes the check, and nothing else
  does short of a collision (`EventLog.ChangeSeenExactly`).
- A risk engine built over an existing log takes up its state, but none of its decisions,
  reservations and failed recoveries: freezing counts the failures since then
  (`RiskRuns.FrozenExactly`), and a machine that froze before stays frozen
  (`RiskRuns.StaysFrozen`, `GatewayCore.FrozenCallsNothing`).
- The session metrics `risk_confirmed` and `risk_released` stay zero in every session,
  whatever was confirmed and released (`SessionCore.EveryApprovalSubmitted`).
- In `parseMyOrder` an empty identifier does not fall back to the order's venue id; the
  execution is dropped (`FillLedgers.EmptyIdentifierDropped`).
- `reconcile` compares joined texts, so different position reports can agree
  (`PositionReports.BarsHideMismatch` is such a pair). A report agrees with some report that
  holds something else exactly when it has two positions or more, or a single one whose
  symbol splits into a line, a bar and the rest of a line not before it
  (`PositionReports.MisreadExactly`). Two reports in which no symbol begins with a line and a
  bar agree exactly when they hold the same (`PositionReports.AgreeExactly`).
- The correlation matrix joins two symbols to one key. Whatever the returns, every lookup
  answers for its own two symbols exactly when equal keys come from the same two symbols
  (`Correlation.LookupExactly`), which is when symbols x|y and y|z beside x and z are one
  symbol, and x and z are one (`Correlation.PairsToldExactly`). With the symbols a, a|b, b|c
  and c the lookup of a and b|c answers for a|b and c, that of b|c and a for just those two
  (`Correlation.MixedLookups`). The matrix is symmetric exactly when the pairs that answer
  both ways are alike (`Correlation.SymmetricExactly`).
- `drawdown` exceeds one exactly for a negative equity below a positive peak, although its
  comment gives the range 0 to 1 (`RiskRuns.DrawdownRange`).

## Model

| member | source | states |
|---|---|---|
| CanonicalJson.KeyOrder | packages/event-engine/src/hash.ts:7 | the key comparison of the printer's sort puts one key before another exactly when it is a proper beginning of it or has the smaller code unit where they first differ, and orders all keys |
| CanonicalForm.ObjectText | packages/event-engine/src/hash.ts:7-8 | an object is printed as its fields in braces, joined by commas, each as quoted key, colon and value, with the keys strictly ascending: of two neighbours the first is a proper beginning of the second or has the smaller code unit where they first differ |
| CanonicalForm.NumberForm | packages/event-engine/src/hash.ts:5 | a number is printed with an exponent exactly from 1e21 on and below 1e-6, with a point exactly where it has a fraction, and in no more characters than that takes |
| CanonicalForm.EscapeForm | packages/event-engine/src/hash.ts:5 | which characters of a string are printed as themselves, which as a short escape and which as a hexadecimal one in lower case |
| CanonicalForm.PairForm | packages/event-engine/src/hash.ts:5 | a surrogate pair is printed as it is, and what follows it on its own |
| Sorting.SortStable | packages/event-engine/src/hash.ts:7 | sorting keeps elements that compare alike in the order they came in |
| JsonReader.ValueReads | packages/event-engine/src/hash.ts:4-9 | every canonical text, at any nesting and with any escapes, is read back as the meaning of the value it was printed from, whatever legal text follows it |
| JsonReader.RoundTrip | packages/event-engine/src/hash.ts:4-9 | reading a canonical text gives the value's meaning and leaves nothing over |
| JsonReader.NumberReads | packages/event-engine/src/hash.ts:5 | every printed number is read back exactly, up to the first character that cannot belong to it |
| JsonReader.StringReads | packages/event-engine/src/hash.ts:5-8 | every quoted string is read back exactly, escapes and lone surrogates included |
| JsonReader.ObjectReads | packages/event-engine/src/hash.ts:7-8 | a printed object is read back as the map from its keys to the meanings of their values |
| JsonReader.SortedAlike | packages/event-engine/src/hash.ts:7 | sorting by key forgets the order in which the fields were given |
| JsonReader.CanonicalExact | packages/event-engine/src/hash.ts:4-9 | two values print alike exactly when they mean the same JSON value, objects as finite maps |
| EventLog.ContentExact | packages/event-engine/src/event-store.ts:26 | the hashed object determines the event, its sequence number and its predecessor's hash |
| RecordedTexts.EventTextSays | packages/event-engine/src/event-store.ts:26 | read back as JSON, the text that is hashed for an event holds each of its fields, its number and its predecessor's hash under their names, and nothing else |
| RecordedTexts.SealHashes | packages/event-engine/src/event-store.ts:23-30 | the first event's hash is the hash of the hash of its text, every later one's that of the hash before it followed by the hash of its text |
| EventLog.LinkExact | packages/event-engine/src/hash.ts:13-20 | equal event hashes come from equal events behind equal predecessors, or two different hashed texts share a digest; a first preimage has 64 characters and a later one 128 |
| EventLog.SealedVerifies | packages/event-engine/src/event-store.ts:17-32 | appending a sealed event to a log that passes the check gives a log that passes it |
| EventLog.TamperEvidence | packages/event-engine/src/event-store.ts:17-58 | two logs that pass the check and end in the same hash are equal event by event, length included, or checking them hashed two different texts to one digest |
| EventLog.ChangeDetected | packages/event-engine/src/event-store.ts:47-58 | changing a stored event, other than to one whose payload has the same JSON meaning, while keeping its hash makes the check fail, or exhibits a collision |
| EventLog.ChangeSeenExactly | packages/event-engine/src/event-store.ts:47-58 | exchanging one stored event passes the check exactly when all fields stay and the payload keeps its JSON meaning, or exhibits a collision |
| EventLog.VerifiedPrefix | packages/event-engine/src/event-store.ts:48-58 | every prefix of a log that passes the check passes it |
| EventLog.InMemoryEventStore.Append | packages/event-engine/src/event-store.ts:17-32 | appends exactly the sealed event and keeps the chain verified; a decision event without snapshot or correlation is refused and changes nothing |
| EventLog.InMemoryEventStore.VerifyChain | packages/event-engine/src/event-store.ts:48-58 | the loop answers true exactly when every stored hash is the recomputed one |
| EventLog.SinceIsSuffix | packages/event-engine/src/event-store.ts:37-39 | on a log the store built, the events since n are everything behind the first n |
| EventLog.CorrelatedInOrder | packages/event-engine/src/event-store.ts:40-42 | the events of a correlation are exactly those of the log that carry its id, in the order of their numbers |
| RecordedTexts.IntTextReads | packages/feature-store/src/cache.ts:17-19 | whole numbers in keys and ids are written in decimal, with a sign exactly below zero and without leading zeros |
| Transitions.EmitTransition | packages/event-engine/src/state-machine.ts:15-31 | appends one sealed event, which extends this machine's path of states by its target |
| Transitions.CurrentState | packages/event-engine/src/state-machine.ts:34-45 | walking the whole log finds the last state of the machine's path, and none when it never moved |
| Transitions.OthersKeepPath | packages/event-engine/src/state-machine.ts:34-45 | any number of events that do not move the machine leave its path alone |
| RiskMachine.RiskStateMachine.CurrentState | packages/risk-engine/src/state-machine.ts:34-36 | the state derived from the log is the last state of the machine's own path, INIT before the first move |
| RiskMachine.RiskStateMachine.Transition | packages/risk-engine/src/state-machine.ts:38-53 | moves exactly along allowed transitions, records one event, and otherwise throws with nothing changed; the path in the log stays valid |
| RiskMachine.OthersKeepValid | packages/risk-engine/src/state-machine.ts:27-36 | other events and other machines in the same log leave the risk machine's path intact |
| RiskMachine.EdgesExactly | packages/risk-engine/src/state-machine.ts:11-24 | the allowed moves are exactly the ten listed ones |
| RiskMachine.ColdStart | packages/risk-engine/src/state-machine.ts:11-24 | a machine is READY before anything else, and enters RUN only from READY or SAFE_MODE |
| RiskMachine.FrozenIsLast | packages/risk-engine/src/state-machine.ts:11-24 | a machine freezes out of a recovery, and nothing follows |
| RiskMachine.CanRunAgain | packages/risk-engine/src/state-machine.ts:11-24 | a machine that is not frozen can run again within three moves |
| RiskMachine.HaltIsLatching | packages/risk-engine/src/state-machine.ts:11-24 | on every valid path, RUN behind HALT has RECOVERY and then READY in between |
| Ledgers.ReserveKeeps | packages/risk-engine/src/budget.ts:34-41 | a reservation keeps the counters equal to the sums of the reservations in those phases, ids fresh, and the budget never overdrawn |
| Ledgers.ConsumeKeeps | packages/risk-engine/src/budget.ts:43-50 | consuming keeps the ledger sound, for known and unknown ids |
| Ledgers.ReleaseKeeps | packages/risk-engine/src/budget.ts:53-61 | releasing keeps the ledger sound, from either phase and for unknown ids |
| Ledgers.HeldNonNegative | packages/risk-engine/src/budget.ts:12-32 | neither counter of a sound ledger is ever negative |
| RiskBudgets.RiskBudget.Reserve | packages/risk-engine/src/budget.ts:34-41 | files a fresh reservation and moves the counters, or changes nothing when the amount is not positive or does not fit |
| RiskBudgets.RiskBudget.Consume | packages/risk-engine/src/budget.ts:43-50 | turns a held reservation into a consumed one in place, else changes nothing |
| RiskBudgets.RiskBudget.Release | packages/risk-engine/src/budget.ts:53-61 | gives a held or consumed reservation back in place, else changes nothing |
| ApprovalTokens.TokenRegistry.Issue | packages/risk-engine/src/token.ts:14-24 | registers one new usable token under the next number |
| ApprovalTokens.TokenRegistry.Use | packages/risk-engine/src/token.ts:32-37 | succeeds exactly for a known, valid, unused token and marks that one alone as used |
| ApprovalTokens.TokenRegistry.InvalidateAll | packages/risk-engine/src/token.ts:40-42 | the loop voids every token and changes nothing else about them |
| RiskCore.StepSound | packages/risk-engine/src/engine.ts:63-175 | every call keeps the ledger sound, approvals, tokens and reservations paired, usable tokens confined to RUN and SAFE_MODE, the path valid and FROZEN tied to the recovery limit |
| RiskCore.RunSound | packages/risk-engine/src/engine.ts:20-176 | that invariant holds after every sequence of calls, on a fresh log and behind any path an engine that did not freeze has left |
| RiskCore.HaltSound | packages/risk-engine/src/engine.ts:140-145 | after a halt no token is usable, even when the halt throws, and the invariant holds |
| RiskCore.ApproveSound | packages/risk-engine/src/engine.ts:103-117 | an approval adds one reservation and one token that name each other and the request |
| RiskRuns.TicketsOneToOne | packages/risk-engine/src/engine.ts:80-118 | two approved requests have different tokens and different reservations, each issued to its own request |
| RiskRuns.EveryTokenApproved | packages/risk-engine/src/engine.ts:103-117 | every issued token belongs to an approved request whose decision names it |
| RiskRuns.ApprovedExactly | packages/risk-engine/src/engine.ts:85-117 | an undecided request is approved exactly in RUN, with drawdown and both exposures within their limits and a positive amount that fits the free budget |
| RiskRuns.RejectedFor | packages/risk-engine/src/engine.ts:85-118 | a rejection gives the first of five reasons that applies: state, drawdown, total exposure, symbol exposure, budget |
| RiskRuns.HaltsExactly | packages/risk-engine/src/engine.ts:89-97 | a check halts exactly when the request is new, the machine runs and more than the allowed fraction of the peak is lost; any other check leaves the machine, and without an approval budget and tokens too |
| RiskRuns.ExposureIs | packages/risk-engine/src/limits.ts:3-8 | both exposures are the plain sums of amounts without sign, of all positions and of those of the symbol |
| RiskRuns.DrawdownExceeds | packages/risk-engine/src/limits.ts:30-33 | the drawdown exceeds a fraction exactly when the loss below a positive peak exceeds that fraction of the peak |
| RiskRuns.PhaseAfter | packages/risk-engine/src/engine.ts:63-175 | where each call leaves the machine, from every state |
| RiskRuns.BudgetAfter | packages/risk-engine/src/engine.ts:80-137 | what each call does to the budget: only a new approval reserves, only a confirmation consumes what is held, only a release gives back what is held or consumed |
| RiskRuns.AuthorizeSpends | packages/risk-engine/src/engine.ts:121-124 | authorising an execution spends its token and no other and touches nothing else |
| RiskRuns.DrawdownRange | packages/risk-engine/src/limits.ts:30-33 | the drawdown is never negative, zero exactly when equity is not below a positive peak, and at most one exactly when equity is not negative |
| RiskRuns.SymbolWithinTotal | packages/risk-engine/src/limits.ts:3-8 | the exposure of a symbol is part of the whole, wherever its positions stand |
| RiskRuns.RepeatedRequest | packages/risk-engine/src/engine.ts:85 | asking again about a decided request, after any calls in between, gives the first decision and changes nothing |
| RiskRuns.SingleUse | packages/risk-engine/src/engine.ts:121-124 | a token authorises at most one execution in a whole run |
| RiskRuns.HaltVoidsForever | packages/risk-engine/src/engine.ts:140-145 | a token issued before a halt is never usable again, whatever follows |
| RiskRuns.HaltThrows | packages/risk-engine/src/engine.ts:140-145 | a halt throws exactly in INIT, READY and HALT, and has voided the tokens by then |
| RiskRuns.FailuresCounted | packages/risk-engine/src/engine.ts:160-175 | the failure counter is the number of failed recoveries since the last one that passed; a check that throws does not count |
| RiskRuns.FrozenExactly | packages/risk-engine/src/engine.ts:160-175 | the machine is frozen exactly at the max(1, limit)-th failed recovery in a row since the engine was built |
| RiskRuns.StaysFrozen | packages/risk-engine/src/engine.ts:29-36 | an engine built over a log whose machine froze stays frozen and approves and reserves nothing, whatever is called |
| RiskRuns.RunsAgainOnlyApproved | packages/risk-engine/src/engine.ts:63-71 | over every run, a halted machine runs again only behind a recovery and an explicit start |
| RiskRuns.StepGrows | packages/risk-engine/src/engine.ts:80-175 | no call takes back a decision, revives a spent token, or changes a reservation's owner or amount |
| RiskEngines.RiskEngine.PreTradeCheck | packages/risk-engine/src/engine.ts:80-118 | decides in the order repeated, state, drawdown, exposure, budget, and appends exactly the events of that branch |
| RiskEngines.RiskEngine.Approve | packages/risk-engine/src/engine.ts:103-117 | reserves, issues and files together and records decision then reservation, or rejects for want of budget with one event |
| RiskEngines.RiskEngine.AuthorizeExecution | packages/risk-engine/src/engine.ts:121-124 | passes exactly on a usable token, uses it up, and records nothing |
| RiskEngines.RiskEngine.ConfirmFill | packages/risk-engine/src/engine.ts:127-131 | consumes a held reservation and records it, else neither |
| RiskEngines.RiskEngine.Release | packages/risk-engine/src/engine.ts:133-137 | releases a reservation that is not released yet and records it, else neither |
| RiskEngines.RiskEngine.EmergencyHalt | packages/risk-engine/src/engine.ts:140-145 | voids the tokens, then moves to HALT and records both events, or throws with the tokens void and nothing recorded |
| RiskEngines.RiskEngine.Reconcile | packages/risk-engine/src/engine.ts:148-157 | halts exactly when the sorted position reports differ |
| PositionReports.AgreeExactly | packages/risk-engine/src/engine.ts:148-157 | where no symbol begins with a line and a bar, two reports agree exactly when they hold the same symbols in the same printed quantities, equally often and in any order |
| PositionReports.MisreadExactly | packages/risk-engine/src/engine.ts:148-157 | a report agrees with one that holds something else exactly when it has two positions or more, or one that splits at a bar into two lines in order |
| PositionReports.JoinInjective | packages/risk-engine/src/engine.ts:150-151 | joined texts can be told apart again when none begins another with a bar behind it |
| RiskEngines.RiskEngine.StartRecovery | packages/risk-engine/src/engine.ts:160-175 | begins a recovery and ends it in READY, HALT or FROZEN by the checks and the limit, with the events of that branch; checks that throw leave it in RECOVERY |
| LoggedEvents.CheckSays | packages/risk-engine/src/engine.ts:80-118 | read by field, a first check records its decision, behind a halt the transition and the reason, behind an approval the reservation; a repeated one records nothing |
| LoggedEvents.RecoverySays | packages/risk-engine/src/engine.ts:160-175 | read by field, a recovery records its transitions and how it ended, with the number of attempts where it froze |
| GatewayCore.GateSound | packages/production-engine/src/execution-gateway.ts:43-52 | the gate admits exactly an order not done, with the switch off and a usable token, and admission spends that token |
| GatewayCore.StepSound | packages/production-engine/src/execution-gateway.ts:43-88 | every action of any interleaving keeps tokens of calls distinct and spent, and calls an adapter exactly when the gate admits it |
| GatewayCore.RunSound | packages/production-engine/src/execution-gateway.ts:22-101 | that holds after every interleaving of calls on any number of gateways over one risk engine, also one behind an earlier log |
| GatewayCore.FrozenCallsNothing | packages/production-engine/src/execution-gateway.ts:43-88 | in every interleaving over a log whose machine froze no adapter is called |
| GatewayCore.OneTokenOneCall | packages/production-engine/src/execution-gateway.ts:43-88 | in every interleaving each adapter call has a token of its own, issued to an approved request |
| GatewayCore.CompletedIsFinal | packages/production-engine/src/execution-gateway.ts:69-88 | once a call for an order ended without throwing, no later-started call for that order reaches the adapter of that gateway |
| GatewayCore.AgainExactly | packages/production-engine/src/execution-gateway.ts:69-88 | a later call for an order reaches the adapter exactly when every earlier one is in flight or failed |
| GatewayCore.OverlapSubmitsTwice | packages/production-engine/src/execution-gateway.ts:69-88 | two approved submissions of one order that overlap both reach the adapter |
| ExecutionGateways.ExecutionGateway.Admit | packages/production-engine/src/execution-gateway.ts:69-77 | the object's gate is the gate of the interleaving model, and records what it turns away |
| ExecutionGateways.ExecutionGateway.Execute | packages/production-engine/src/execution-gateway.ts:43-58 | sends and fills exactly on admission; an adapter that throws leaves the order not done with only the sent event |
| ExecutionGateways.ExecutionGateway.StartAsync | packages/production-engine/src/execution-gateway.ts:69-80 | up to the await: refuses, fails closed without an adapter, or records the order as sent |
| ExecutionGateways.ExecutionGateway.FinishAsync | packages/production-engine/src/execution-gateway.ts:78-87 | behind the await: an acknowledgement, even a rejecting one, completes the order and is recorded as it came; a throw leaves the order open, is recorded as a rejection, and its message becomes the reason |
| LoggedEvents.SentSays | packages/production-engine/src/execution-gateway.ts:52-58 | read by field, a sent order is recorded with its id, symbol, side and amount |
| LoggedEvents.TurnedAwaySays | packages/production-engine/src/execution-gateway.ts:69-77 | read by field, an order that is turned away is recorded with its id and the reason, and one that was completed is not recorded |
| LoggedEvents.SubmittedSays | packages/production-engine/src/execution-gateway.ts:78-87 | read by field, a submission is recorded with both ids, status, time and reason |
| FillLedgers.GeneratedParses | packages/adapters-upbit/src/my-order.ts:44-68 | a generated message is an execution exactly when it has funds and a client order, and then carries those funds, fee and quantity |
| FillLedgers.ParsesExactly | packages/adapters-upbit/src/my-order.ts:44-68 | a message is an execution exactly when kind, trade, funds and an order's name are there; which field each part of the fill comes from, and what stands in for a missing one |
| FillLedgers.DeliverMirrors | packages/adapters-upbit/src/my-order.ts:83-95 | after any messages the buffer of an order holds every reported trade once, as first reported |
| FillLedgers.FilledIsSumOfTrades | packages/adapters-upbit/src/my-order.ts:105-107 | the filled amount is the sum over distinct trades of the funds first reported, and there is one fill per trade |
| FillLedgers.FillsKept | packages/adapters-upbit/src/my-order.ts:98-102 | listing the fills in order keeps every one of them and their sum |
| FillLedgers.FillsOrdered | packages/adapters-upbit/src/my-order.ts:98-102 | fills are listed by number, those with one number by time |
| FillLedgers.RedeliveryIsNoOp | packages/adapters-upbit/src/my-order.ts:83-95 | delivering a known trade again, anywhere and in any wording, changes nothing then or later |
| FillLedgers.OrderAndCopiesIrrelevant | packages/adapters-upbit/src/my-order.ts:83-107 | when copies agree, any reordering and duplication gives the same amount and the same fills |
| FillLedgers.ClearedExactly | packages/adapters-upbit/src/my-order.ts:110-112 | what an order holds is exactly what was delivered since it was last cleared |
| FillLedgers.PlanDelivered | packages/paper/src/simulated-fill-generator.ts:37-70 | a generated plan delivered in any order with any duplication fills the order with the sum of its positive amounts |
| FillLedgers.PlanFills | packages/paper/src/simulated-fill-generator.ts:41-55 | every fill of a plan is the order's, with positive funds, the price's quantity and the rate's fee |
| FillLedgers.PlanFillsInOrder | packages/paper/src/simulated-fill-generator.ts:37-70 | a plan delivered in any order with any duplication gives one fill per positive amount, in the order of the plan |
| FillLedgers.PlanPays | packages/paper/src/simulated-fill-generator.ts:59-70 | a full plan pays the request in one fill; a partial one its own amount up to the request, or nothing if that is not positive; no plan nothing; several parts the positive ones, one fill each |
| FillLedgers.EmptyIdentifierDropped | packages/adapters-upbit/src/my-order.ts:53-57 | an execution the venue names is dropped exactly when its own identifier is there and empty |
| FillLedgers.PaidWithinRequest | packages/paper/src/simulated-fill-generator.ts:59-70 | every plan but several parts pays at most the request; several parts pay the sum of the positive ones |
| FillLedgers.TradeIdInjective | packages/paper/src/simulated-fill-generator.ts:45 | the trade ids of one plan are all different |
| FillBuffers.MyOrderFillBuffer.Ingest | packages/adapters-upbit/src/my-order.ts:83-95 | adds the first report of a trade and answers nothing for anything else |
| FillBuffers.MyOrderFillBuffer.FilledNotional | packages/adapters-upbit/src/my-order.ts:105-107 | the loop adds up the listed fills |
| Reconciliation.ReportMeaning | packages/production-engine/src/execution-reconciler.ts:59-64 | rejected, cancelled, filled and partially filled are each said exactly when they hold, and filled plus remaining is the request exactly unless more was filled |
| Reconciliation.ReportGrows | packages/production-engine/src/execution-reconciler.ts:59-99 | one more fill of the order adds its funds, its fee and one to the count, and names the venue's order if none did; any other changes nothing |
| Reconciliation.OthersIgnored | packages/production-engine/src/execution-reconciler.ts:94-99 | fills of other orders do not change a report |
| Reconciliation.SettlesReservation | packages/production-engine/src/execution-reconciler.ts:101-113 | a held reservation leaves the reserved amount whole, as consumed when something was filled and not rejected, else back to the budget |
| Reconciliation.ConsumedDropsExactly | packages/production-engine/src/execution-reconciler.ts:90-113 | consumed budget is given back exactly when the order is new, nothing counts as filled and its reservation was consumed |
| Reconciliation.SettledOnce | packages/production-engine/src/execution-reconciler.ts:90-92 | an order drives the risk engine at most once in a run; later calls replay the first outcome and change nothing |
| Reconciliation.RunSound | packages/production-engine/src/execution-reconciler.ts:90-129 | the risk engine stays sound whatever is settled and called in between, also behind an earlier log |
| ExecutionReconcilers.ExecutionReconciler.Reconcile | packages/production-engine/src/execution-reconciler.ts:90-129 | settles an order once against the real risk engine and records at most one budget event, of the kind of the outcome |
| PaperBooks.SaleKeepsAverage | packages/paper/src/portfolio.ts:40-46 | a sale takes the sold share of the cost, leaves the average price of the rest, and its floor at zero never cuts anything off |
| PaperBooks.PurchaseAverages | packages/paper/src/portfolio.ts:36-39 | a purchase moves the average price between the old average and the price paid |
| PaperBooks.PurchaseKeeps | packages/paper/src/portfolio.ts:32-39 | a purchase adds exactly its funds to the total cost |
| PaperBooks.SaleKeeps | packages/paper/src/portfolio.ts:40-46 | a sale lowers the total cost by the sold quantity at average cost |
| PaperBooks.CostBounded | packages/paper/src/portfolio.ts:32-67 | over every run of fills the total cost lies between zero and what was spent, and equals it while nothing was sold |
| PaperBooks.QuantityHeld | packages/paper/src/portfolio.ts:32-54 | every symbol's quantity follows the plain rule of purchases and capped sales, and flat positions vanish |
| PaperBooks.FeesHeld | packages/paper/src/portfolio.ts:32-34 | fees add up over the fills with funds and quantity, of either side |
| PaperBooks.PositionTells | packages/paper/src/portfolio.ts:50-54 | a position costs its quantity at its average price |
| PaperPortfolios.PaperPortfolio.ApplyFill | packages/paper/src/portfolio.ts:32-47 | books a fill exactly as the value model does, and ignores fills without funds or quantity |
| PaperPortfolios.PaperPortfolio.TotalNotional | packages/paper/src/portfolio.ts:65-67 | the sum over open positions, independent of the order they come in |
| SessionCore.RequestIdInjective | packages/paper/src/pipeline.ts:149 | numbered request ids tell decision and number apart, whatever the decision ids contain |
| SessionCore.SizedExactly | packages/paper/src/sizing.ts:70-99 | a decision is sized exactly when it trades, confidence and price suffice and a whole amount fits between floor and ceiling; the order is for the largest such amount, bought or sold as decided |
| SessionCore.OrderedExactly | packages/paper/src/pipeline.ts:139-151 | a cycle leads to an order exactly when its decision is sized, the machine runs, not too much is lost, both limits hold for the positions given with the order added, and it fits the budget |
| SessionCore.HaltedSession | packages/paper/src/pipeline.ts:226-267 | a session runs or is halted, and is halted exactly when some sized decision of it was asked while more than the allowed fraction was lost |
| SessionCore.OrderFilled | packages/paper/src/pipeline.ts:169-193 | the buffered fills of an accepted order are exactly what its plan pays, each with a quantity, all its own |
| SessionCore.ExecuteSettles | packages/paper/src/pipeline.ts:155-203 | behind an approval the order reaches the venue once and its reservation is settled whole |
| SessionCore.CycleMoves | packages/paper/src/pipeline.ts:112-223 | one cycle leaves nothing reserved, moves consumed budget by the order exactly when something is paid, and the portfolio by what is paid |
| SessionCore.OrderEnds | packages/paper/src/pipeline.ts:169-203 | an accepted order ends filled, partially filled or cancelled as its plan says, by exactly the plan's amount; one the venue does not accept is rejected with nothing filled |
| SessionCore.PlanMovesBooks | packages/paper/src/pipeline.ts:195-207 | a full or partial fill consumes the whole order's budget, and makes a purchase cost exactly what was filled |
| SessionCore.CycleHolds | packages/paper/src/pipeline.ts:204-207 | a cycle buys or sells what was filled over the price in its own symbol, without fees, and moves no other |
| SessionCore.RunSound | packages/paper/src/pipeline.ts:226-257 | every session keeps the risk engine sound and nothing reserved, and with parts within their orders the cost never exceeds what is consumed |
| SessionCore.BudgetCoversPositions | packages/paper/src/pipeline.ts:226-267 | after every cycle reserved is zero and total cost <= consumed <= total, for all decisions, venue modes, duplicates and plans whose parts stay within the order |
| SessionCore.EveryApprovalSubmitted | packages/paper/src/pipeline.ts:239-262 | every approved order reaches the venue exactly once, is reconciled and holds its own reservation; the metrics add up, those that nothing counts stay zero, and the budget is consistent |
| SessionCore.CycleCounted | packages/paper/src/pipeline.ts:243-255 | a cycle counts as full, partial, duplicated, approved or rejected by what was asked, filled and delivered |
| SessionCore.OutgrowsExactly | packages/paper/src/pipeline.ts:166-208 | an accepted purchase outgrows the consumed budget exactly when the parts of its plan exceed the order |
| SessionCore.OversizedOverspends | packages/paper/src/pipeline.ts:226-257 | a session with one oversized plan ends with a cost of 2 against 1 consumed |
| SessionCore.SameNumberReleases | packages/paper/src/pipeline.ts:148-208 | a filled order taken again under its number loses its consumed budget while the position stays |
| SessionCore.CycleDropsExactly | packages/paper/src/pipeline.ts:112-216 | a cycle lowers the consumed budget exactly when its request was approved before, the reservation of that approval is consumed, and nothing fills this time |
| PaperSessions.SubmitOrder | packages/paper/src/pipeline.ts:155-167 | one submission through a gateway of its own spends the token exactly on admission and succeeds exactly when the venue accepts |
| PaperSessions.CollectFills | packages/paper/src/pipeline.ts:169-193 | the delivery loop with its duplicates leaves exactly the modelled fills |
| PaperSessions.RunPaperCycle | packages/paper/src/pipeline.ts:112-223 | the cycle over the real objects is the cycle of the value model |
| PaperSessions.RunPaperSession | packages/paper/src/pipeline.ts:226-267 | the session over the real objects ends in the modelled books and metrics |
| FeatureDag.Traversal.Visit | packages/feature-store/src/dag.ts:17-28 | terminates; orders a key behind its dependencies, or reports a reachable cycle or unknown key; keys on the way and ordered keys stay apart |
| FeatureDag.TopoOrder | packages/feature-store/src/dag.ts:9-32 | returns exactly the dependency closure, each key once, dependencies first, or a reachable key on a cycle or unregistered; when all references resolve it fails exactly on a reachable cycle |
| FeatureDag.IsDag | packages/feature-store/src/dag.ts:35-42 | true exactly when the closure of the roots is registered and acyclic |
| FeatureDag.OrderedAcyclic | packages/feature-store/src/dag.ts:5-8 | whatever an order contains is registered and not on a cycle |
| FeatureDag.OrderedClosed | packages/feature-store/src/dag.ts:5-8 | an order that contains the roots contains their whole closure |
| RawStores.QueryIsOneFilter | packages/data-layer/src/query/as-of.ts:15-20 | the chained filters select exactly what was known by then and asked for |
| RawStores.QueryNext | packages/data-layer/src/query/as-of.ts:15-20 | a landed record is answered exactly when it happened and arrived by the asked times and is of the asked symbol and kind, in the order of landing |
| RawStores.PastReadsStable | packages/data-layer/src/query/as-of.ts:15-20 | a read stays the same when a record lands exactly when the record is not known at the asked time or not asked for |
| Quality.AssessQuality | packages/feature-store/src/quality.ts:20-47 | the counting loop finds repeated numbers, records older than one before them, and missing numbers |
| Quality.NormalizeInput | packages/feature-store/src/quality.ts:50-64 | the loop and sort give the normalized input and its report |
| Quality.NormalizeCorrect | packages/feature-store/src/quality.ts:50-64 | normalized input is ordered, holds exactly the first record of every number, and with the reported duplicates accounts for all input |
| Quality.ArrivalIrrelevant | packages/feature-store/src/quality.ts:50-64 | records with different numbers are normalized alike in any order of arrival |
| Quality.SeqsKept | packages/feature-store/src/quality.ts:55-61 | no sequence number is lost by dropping duplicates |
| Quality.GapsAreWhatIsMissing | packages/data-layer/src/gaps/detect.ts:10-19 | reported gaps and occurring numbers add up to the whole range between the least and the greatest number |
| Quality.CompleteExactly | packages/feature-store/src/quality.ts:34-46 | input is reported complete exactly when nothing repeats, nothing is late and nothing is missing |
| Quality.FilledCounted | packages/feature-store/src/quality.ts:34-46 | records filled in later are counted and marked on top of the report without them |
| FeatureCompute.CacheKeyInjective | packages/feature-store/src/cache.ts:17-19 | without a bar in the symbols a cache key determines feature, symbol and time |
| FeatureCompute.SymbolsShareExactly | packages/feature-store/src/cache.ts:17-19 | a question about another symbol shares the key exactly when the symbol has a bar or the feature's own key has one behind an at-sign |
| FeatureCompute.KeyNamesOneExactly | packages/feature-store/src/cache.ts:17-19 | another question shares the key exactly when there is an at-sign in id or version or a bar in version or symbol |
| FeatureCompute.RefKeyInjective | packages/feature-store/src/types.ts:10 | keys tell features and versions apart when versions have no at-sign |
| FeatureCompute.ComputeFeatures | packages/feature-store/src/compute.ts:26-52 | the loop over the plan fills values and cache as specified, and stops where a feature is not registered |
| FeatureContexts.HandsOver | packages/feature-store/src/compute.ts:36-49 | every feature of a resolved plan has the value of its transform on a context that holds symbol and time, exactly the values of the features before it, the first of each number of the records it reads in order of time and number, and the report on those records as they landed |
| FeatureContexts.DependencyHandedOver | packages/feature-store/src/compute.ts:41-47 | a transform that gives what a declared dependency holds has exactly the dependency's value |
| FeatureContexts.NormalizedPrepared | packages/feature-store/src/quality.ts:50-64 | of the records picked from a log, normalization keeps the first of every number, once each, by time and then number |
| FeatureContexts.ReportTells | packages/feature-store/src/quality.ts:20-47 | the report counts the picked records that repeat a number, those older than an earlier one, and the numbers missing in the range, and marks what it counted |
| FeatureContexts.ComputesExactly | packages/feature-store/src/compute.ts:30-36 | without a cache a plan is computed exactly when all its features are registered |
| FeatureCompute.SameInEveryPlan | packages/feature-store/src/compute.ts:36-50 | a feature has the same value in every resolved plan that lists it, when transforms read only what they declare |
| FeatureCompute.HitAgrees | packages/feature-store/src/compute.ts:31-35 | a cache hit is what the plan would compute itself, whichever plan stored it |
| FeatureCompute.CacheAgrees | packages/feature-store/src/compute.ts:26-52 | a plan gives the same values with a coherent cache as without, and leaves it coherent |
| FeatureCompute.LaterRecordIgnored | packages/feature-store/src/compute.ts:37-39 | a record that no feature of a plan reads changes nothing the plan computes |
| FeatureCompute.LandingChangesExactly | packages/feature-store/src/compute.ts:37-42 | a record that lands changes no value a feature could compute exactly when it is unknown at the time, of another symbol, or of a kind the feature does not take |
| FeatureCompute.CacheNeverShows | packages/feature-store/src/compute.ts:26-52 | over any session of resolved plans (one version per feature, no at-sign in a version) sharing one cache, in which no two symbols share a key and no record lands that an earlier plan reads, every plan gets its uncached values |
| FeatureCompute.NeverShowsExactly | packages/feature-store/src/compute.ts:26-52 | for all features of one shape, a session of plans resolved in that sense answers every plan as without its cache, at every point, exactly when no two symbols asked about share a key and no record lands that an earlier plan reads |
| FeatureCompute.ReadIsStale | packages/feature-store/src/compute.ts:31-35 | for features that count their input, a record that an earlier plan reads leaves that plan's cached answer stale |
| RateLimiters.RateLimiter.AcquireDelayMs | packages/data-layer/src/backfill/rest-client.ts:26-41 | refills by the elapsed time and grants or answers a wait, as the value model does |
| RateLimiters.ZeroIsGrant | packages/data-layer/src/backfill/rest-client.ts:33-41 | zero is answered exactly for a grant, which takes one token; any other wait is positive and takes none |
| RateLimiters.AcquireExactly | packages/data-layer/src/backfill/rest-client.ts:26-41 | by the asked time the bucket has taken in a thousandth of the rate per millisecond up to the burst; a grant takes one, and a refusal answers the least number of milliseconds that fills it up to one |
| RateLimiters.DelayExact | packages/data-layer/src/backfill/rest-client.ts:33-41 | with no call in between, asking after the answered delay is granted and one millisecond earlier is not |
| RateLimiters.SmallBurstStarves | packages/data-layer/src/backfill/rest-client.ts:26-41 | with a burst below one nothing is ever granted |
| RateLimiters.RateBound | packages/data-layer/src/backfill/rest-client.ts:15-42 | on a clock that does not go back, at most burst + rate * t / 1000 grants fall into any t milliseconds |
| RateLimiters.LoopWithinTwice | packages/data-layer/src/backfill/rest-client.ts:56-65 | the requests that a sequential loop sends within any time are at most twice the granted bound for that time |
| RateLimiters.WaitlessKeepsRate | packages/data-layer/src/backfill/rest-client.ts:57-59 | a stretch of requests none of which waited, except perhaps the last, is sent within burst + rate * t / 1000 |
| RateLimiters.LoopKeepsRateExactly | packages/data-layer/src/backfill/rest-client.ts:56-65 | a back-to-back loop behind a full bucket exceeds the rate somewhere exactly when it makes more requests than a limit computed from rate and burst |
| RateLimiters.WaitBreaksRate | packages/data-layer/src/backfill/rest-client.ts:57-59 | up to a thousand requests a second that is exactly when a request before the last one waited |
| Backfill.BackfillCandles | packages/data-layer/src/backfill/rest-client.ts:45-69 | ends against every client, with the pages it collected, filtered and sorted |
| Backfill.CollectExact | packages/data-layer/src/backfill/rest-client.ts:56-65 | paging against an honest server skips nothing and fetches nothing twice |
| Backfill.BackfillExact | packages/data-layer/src/backfill/rest-client.ts:45-69 | the result is exactly the server's candles in the range, each once, in order, for every page size from one on |
| Backfill.PageSizeZero | packages/data-layer/src/backfill/rest-client.ts:52-60 | a page size of zero fetches nothing |
| Backfill.PagesFollow | packages/data-layer/src/backfill/rest-client.ts:56-68 | against any server a page that is empty or does not go back in time is the last, and behind any other the fetch goes on from its earliest time; what the pages hold in the range is kept |
| Candles.WindowHolds | packages/data-layer/src/candles/reconstruct.ts:3-5 | a window holds exactly the times from its start to its end and starts at a multiple of its length |
| Candles.ReconstructCandles | packages/data-layer/src/candles/reconstruct.ts:12-56 | grouping, sorting and folding give one candle per closed window with trades |
| Candles.CandlesInOrder | packages/data-layer/src/candles/reconstruct.ts:18-28 | candles come in strictly increasing aligned windows, exactly the closed ones with trades |
| Candles.CandleSpans | packages/data-layer/src/candles/reconstruct.ts:29-53 | high and low are the extreme prices of the window's trades, and open and close lie between them |
| Candles.CandleOpensAndCloses | packages/data-layer/src/candles/reconstruct.ts:29-49 | a candle opens at the price of its window's earliest trade and closes at that of the latest |
| Candles.NoRepaint | packages/data-layer/src/candles/reconstruct.ts:7-22 | with any later trades mixed in, the candles of an earlier time are the first candles of a later one |
| Candles.OrderIrrelevant | packages/data-layer/src/candles/reconstruct.ts:20-30 | trades told apart by time and number may arrive in any order |
| Candles.VolumeConserved | packages/data-layer/src/candles/reconstruct.ts:31-51 | volumes and turnovers of the candles sum up to those of the trades in closed windows |
| Candles.CandleCounts | packages/data-layer/src/candles/reconstruct.ts:31-51 | a candle's volume and turnover are the sums of volume and of price times volume over the trades from its opening time up to its end |
| WriteBehind.NothingLost | packages/adapters-db/src/buffered-raw-store.ts:20-61 | under every interleaving of appends, flushes, successes and failures, written, in flight and pending are in this order what was appended, with at most one batch in flight |
| WriteBehind.WrittenIsPrefix | packages/adapters-db/src/buffered-raw-store.ts:48-61 | what is durably written is the oldest part of what was appended and only grows |
| WriteBehind.PendingCountExactly | packages/adapters-db/src/buffered-raw-store.ts:42-45 | the pending count is the number of unconfirmed records exactly while no batch is in flight |
| WriteBehind.StepsExactly | packages/adapters-db/src/buffered-raw-store.ts:20-61 | an append hands over what waits exactly when it is enough and no batch is under way, a flush anything at all; a batch that comes back is written, or waits again in front |
| WriteBehind.FlushDrains | packages/adapters-db/src/buffered-raw-store.ts:48-61 | a flush that succeeds with nothing appended in between leaves everything written |
| WriteBehind.BufferedRawStore.Append | packages/adapters-db/src/buffered-raw-store.ts:20-24 | makes the record visible at once and starts a flush when the batch is full, keeping everything conserved |
| WriteBehind.BufferedRawStore.BeginFlush | packages/adapters-db/src/buffered-raw-store.ts:48-53 | hands over everything pending unless a flush is under way or nothing waits |
| WriteBehind.BufferedRawStore.FinishFlush | packages/adapters-db/src/buffered-raw-store.ts:54-61 | a success writes the batch, a failure puts it back before what arrived meanwhile |
| Correlation.CovarianceBounded | packages/portfolio-engine/src/correlation.ts:12-22 | cov^2 <= va * vb for series of any length |
| Correlation.PearsonBounded | packages/portfolio-engine/src/correlation.ts:1-24 | a correlation lies between -1 and 1 and does not depend on the order of the two series |
| Correlation.PearsonFormula | packages/portfolio-engine/src/correlation.ts:1-24 | the correlation is the textbook one over the first values both series have: its square, its sign and where it is zero follow from n times the sums of products less the products of the sums |
| Correlation.AffineCorrelates | packages/portfolio-engine/src/correlation.ts:1-24 | a series that is not constant correlates with a rising affine image of itself by exactly 1, and with a falling one by -1 |
| Correlation.Correlate | packages/portfolio-engine/src/correlation.ts:1-24 | the accumulating loops compute mean deviations and their products |
| Correlation.Build | packages/portfolio-engine/src/correlation.ts:36-46 | the loops store the correlation of every pair under its joined key, later pairs over earlier ones |
| Correlation.FilledBounded | packages/portfolio-engine/src/correlation.ts:36-46 | every stored number lies between -1 and 1 |
| Correlation.AlikeExactly | packages/portfolio-engine/src/correlation.ts:42 | two pairs correlate alike for all returns exactly when they are the same two symbols or both a symbol with itself |
| Correlation.LookupExactly | packages/portfolio-engine/src/correlation.ts:36-50 | whatever the returns, every pair finds its own correlation exactly when equal keys come from pairs that are alike |
| Correlation.MissingIsZero | packages/portfolio-engine/src/correlation.ts:48-50 | a lookup whose key no two symbols of the matrix join to answers zero |
| Correlation.PairsToldExactly | packages/portfolio-engine/src/correlation.ts:42-49 | that is when the joins of x with y and of y with z are symbols beside x and z only where both joins are one symbol and x is z; without bars it always is |
| Correlation.SymmetricExactly | packages/portfolio-engine/src/correlation.ts:36-50 | whatever the returns, the matrix is symmetric exactly when the pairs that answer a lookup both ways are alike |
| Correlation.MatrixSymmetric | packages/portfolio-engine/src/correlation.ts:36-50 | a matrix of symbols whose keys are told apart is symmetric with ones on its diagonal |
| Correlation.AvgAtMostOne | packages/portfolio-engine/src/correlation.ts:53-57 | the mean absolute correlation of a symbol is at most one |
| Correlation.AvgIsMean | packages/portfolio-engine/src/correlation.ts:53-57 | the mean absolute correlation times the number of other symbols is the sum of the entries with them without signs, and zero without any |
| Optimizer.ClusterByCorrelation | packages/portfolio-engine/src/optimizer.ts:73-93 | the clusters partition the symbols; members are linked to their leader and no later symbol is linked to an earlier leader |
| Optimizer.SymbolsListed | packages/portfolio-engine/src/optimizer.ts:24 | the symbols are worked through in ascending order, one for each candidate |
| Optimizer.KellyEdge | packages/portfolio-engine/src/optimizer.ts:5-8 | a bet is made exactly on an edge, is at most the probability of winning, and does not shrink for a better payoff |
| Optimizer.KellyStake | packages/portfolio-engine/src/optimizer.ts:5-8 | the stake times the payoff ratio is the edge, nothing without one |
| Optimizer.SizedIsWeight | packages/portfolio-engine/src/optimizer.ts:29-34 | below the cap a weight times one plus the mean correlation times the payoff ratio is the fraction of the edge; at the cap it is no more |
| Optimizer.PenaltyShrinks | packages/portfolio-engine/src/optimizer.ts:33 | with an edge and below the cap, a higher mean correlation makes the weight strictly smaller |
| Optimizer.GroupsCapped | packages/portfolio-engine/src/optimizer.ts:47-55 | every group's sum becomes the smaller of itself and the cap, others keep theirs, and no weight grows |
| Optimizer.TotalCapped | packages/portfolio-engine/src/optimizer.ts:57-64 | the total becomes the smaller of itself and the cap, and every group shrinks with it |
| Optimizer.AllCapped | packages/portfolio-engine/src/optimizer.ts:18-71 | the caps per symbol, group and total hold at the same time for the final weights |
| Optimizer.Optimize | packages/portfolio-engine/src/optimizer.ts:18-71 | the sizing and scaling loops give weights under all caps at once; they come from sized weights, each its first candidate's stake for its own mean correlation, by keeping shares while every group's sum and then the total comes down to its cap, and where neither sum is at its cap a weight is as sized |
| Optimizer.NotionalFits | packages/portfolio-engine/src/engine.ts:28-46 | in exact arithmetic the planned amounts fit the available budget |
| Optimizer.PlanPortfolio | packages/portfolio-engine/src/engine.ts:23-46 | the plan's weights satisfy every cap and come from the stakes in those steps for the correlation matrix of the returns, every amount is its weight's share of the budget, and the hard clip never fires |
| Indicators.Ema | packages/feature-store/src/indicators.ts:9-15 | the smoothing loop computes the running average, and there is none outside the period's range |
| Indicators.AveragesBetween | packages/feature-store/src/indicators.ts:3-15 | simple and exponential averages stay between any bounds of the series |
| Indicators.EmaMoves | packages/feature-store/src/indicators.ts:9-15 | each new value moves the exponential average towards it by 2 parts in period + 1, from the mean of the first values on |
| Indicators.SmaSlides | packages/feature-store/src/indicators.ts:3-7 | a new value enters the sum behind the simple average and the one a period before leaves it |
| Indicators.TrendSlope | packages/feature-store/src/indicators.ts:79-92 | the regression loops compute the slope over the last closes |
| Indicators.LeastSquares | packages/feature-store/src/indicators.ts:79-92 | the slope is the one of least squares: the line with it through the means misses the points by less in total than every other line |
| Indicators.SlopeOfLine | packages/feature-store/src/indicators.ts:79-92 | on points of a line the slope is exactly the line's |
| Indicators.SlopeOfRising | packages/feature-store/src/indicators.ts:79-92 | a strictly rising series has a positive slope |
| Indicators.TrendMeaning | packages/feature-store/src/indicators.ts:79-92 | for every period from two on the trend of the last closes is exact on lines and positive when they rise |
| Indicators.StrengthMeaning | packages/feature-store/src/indicators.ts:17-29 | relative strength is a percentage below 100, zero exactly when only losses occurred, and with losses above 50 exactly when gains exceed them |
| Indicators.Rsi | packages/feature-store/src/indicators.ts:17-29 | the loop splits the last changes into gains and losses |
| Indicators.ChangesSplit | packages/feature-store/src/indicators.ts:21-25 | gains less losses is what the closes moved in total, and together they are all changes without their signs |
| Indicators.StrengthIsShare | packages/feature-store/src/indicators.ts:26-28 | the strength is the share of the gains in all changes in percent, with a tiny loss where there is none |
| Indicators.VwapBetween | packages/feature-store/src/indicators.ts:120-129 | with volumes that are not negative the weighted price lies between the least and the greatest price |
| Indicators.VwapGrows | packages/feature-store/src/indicators.ts:120-129 | one more trade adds its price times its volume to the weighted price times the volume before it, and one trade alone has its own price |
| Projections.RunPipeline | packages/event-engine/src/projection.ts:17-29 | live and replay compute the same fold; a sink receives every event once, in order, and its absence changes nothing but that |
| Projections.FoldContinues | packages/event-engine/src/projection.ts:17-29 | stopping anywhere and going on gives the state of one pass |
| Projections.FoldNext | packages/event-engine/src/projection.ts:17-29 | one more event is one more step, on the event as the upcaster gives it |
| Projections.ProjectionEngine.Rebuild | packages/event-engine/src/projection.ts:55-58 | deleting and rebuilding gives what a first build gives, whatever was cached |
| Projections.RecordOfAnyOrder | packages/event-engine/src/decision-projection.ts:18-41 | a decision record depends on which events there are, not on their order, and names every one of them |
| Projections.RecordTextExact | packages/event-engine/src/decision-projection.ts:27-40 | two records have the same hashed text exactly when all their fields agree, the outcome up to JSON meaning |
| Projections.DecisionHashExact | packages/event-engine/src/decision-projection.ts:18-41 | decisions that carry the same hash are the same decision behind the same events, and conversely, or their two texts collide |
| Projections.RecordSpans | packages/event-engine/src/decision-projection.ts:18-41 | a record takes its time and correlation from the event with the least number and its decision time from the one with the greatest |
| Projections.RecordTells | packages/event-engine/src/decision-projection.ts:18-39 | by number, a record names all events, the first snapshot that is named, and action and reason of the first outcome event, or holding where there is none or it says nothing |
| RecordedTexts.RecordTextSays | packages/event-engine/src/decision-projection.ts:27-40 | read back as JSON, the text that is hashed for a record holds each of its fields under its name, and nothing else |
| Replay.StateHashExact | packages/replay-engine/src/session.ts:5-10 | equal state hashes come from equal sequences of event hashes, or two different hashed texts share a digest |
| RecordedTexts.StateHashNext | packages/replay-engine/src/session.ts:5-10 | one more applied event chains the hash of its own quoted hash behind the state |
| Replay.ReplayIdentifiesLog | packages/replay-engine/src/session.ts:5-10 | two checked logs whose replays end in the same state are the same log, or a collision is exhibited |
| Replay.StateIsPosition | packages/replay-engine/src/session.ts:5-10 | after any two runs of controls over one slice, equal state hashes mean equally many applied events, and conversely, or exhibit a collision |
| Replay.SeekLeavesExactly | packages/replay-engine/src/session.ts:48-52 | a seek leaves events to apply exactly when the slice is not empty and its last event is not the first one with the sought number |
| Replay.FinishedIsDone | packages/replay-engine/src/session.ts:39-46 | over any run without a seek, a finished session has applied the whole slice |
| Replay.FinishedBehindExactly | packages/replay-engine/src/session.ts:39-71 | over every run, a session is finished with events left exactly when since finishing it sought a number from which its later steps do not reach the end |
| Replay.PauseUndone | packages/replay-engine/src/session.ts:54-59 | a pause holds a running session and nothing else, and resuming undoes just that |
| Replay.ReplaySession.Next | packages/replay-engine/src/session.ts:39-46 | applies the next event and returns it, or finishes at the end |
| Replay.ReplaySession.StateHash | packages/replay-engine/src/session.ts:77-79 | the loop refolds the hashes of the applied events |
| Replay.ReplaySession.RunToEnd | packages/replay-engine/src/engine.ts:120-138 | from any cursor and status everything is applied in the end |
| Replay.ReplayEngine.RunToEnd | packages/replay-engine/src/engine.ts:120-138 | running to the end records one event with the hash and the length of the whole slice, from any cursor |
| LoggedEvents.FinishedSays | packages/replay-engine/src/engine.ts:120-138 | read by field, a finished replay records its session, the hash of its last state and how many events it applied |
| Replay.ReplayMatchesLive | packages/replay-engine/src/engine.ts:120-145 | a replay from any cursor ends in the hash of the whole slice and in the state of a live run over it |
| Replay.ReplaySession.Decisions | packages/replay-engine/src/engine.ts:148-161 | the grouping loop gives one record per correlation id among the applied events |
| Replay.DecisionsMatch | packages/replay-engine/src/engine.ts:148-161 | there is exactly one record per correlation id that occurs, equal to projecting that id's events |
| Replay.RangeIsStretch | packages/replay-engine/src/engine.ts:40-53 | replaying any range of a store's log replays exactly that stretch of it, none when the range is empty, and replaying without one all of it |
| Replay.SliceNext | packages/replay-engine/src/engine.ts:40-53 | an event is replayed exactly when the clock reads its time as known by the asked one and it lies in the range, in the order of the log |

## Left out

- SHA-256 itself, and everything a hash function would need beyond its digest length.
- IEEE rounding and the tolerances of 1e-9; all arithmetic is exact. Not-a-number and infinities appear only where numbers are printed.
- `RiskBudget.setTotal`, whose comment promises a floor that the code does not check and which the risk engine never calls.
- Sequence numbers, schema versions, event times of records and trades, and candle times are whole numbers.
- Sparse arrays, dates, `toJSON` methods, BigInt values and cyclic objects in the canonical printer; an event payload that throws when a field of it is read.
- Aliasing of the token and reservation objects and of the live `all()` array that the program hands out: the model hands out ids and values.
- The order of `localeCompare`: positions and allocations are maps by symbol.
- Signal, strategy and decision engines: the decision and the price are inputs of a session, and so are sizing policies.
- PaperSessions.RunPaperSession: does not model exceptions of the signal, strategy and decision engines, which the `exceptions` metric counts; the final positions are those of the portfolio it returns.
- RiskEngines.RiskEngine.constructor: does not model a log whose risk path no engine can have left, such as one with an unknown state name.
- Optimizer.Optimize: does not model the explain entries, which restate intermediate weights in words.
- Optimizer.PlanPortfolio: does not model the event that the portfolio engine records, nor the order of its allocations.
- Replay.ReplayEngine.RunToEnd: does not model the branch for a step that throws, which none does, nor the engine's events for starting, pausing, resuming and seeking, nor session snapshots and timestamps.
- The plan key of a resolved feature set, and registering definitions.
- MACD, Bollinger bands, volatility, volume ratio and average true range.
- Detecting gaps between candles, and the ordering of detected gaps beyond their total.
- The clients for REST, WebSocket, ClickHouse and Postgres, timers and collectors; a page request or a batch write is an input here. The backfill model takes the limiter's waits as delays only; their effect on the rate is modelled beside it.
- The dashboard, presentation models, AI layer, research platform, operations, orchestrator, market health, soak harness and sample-based invariant checks: mapping, tables or finite samples.
- `RingBuffer`, `RealtimePublisher`, the operator replay session and the snapshot runtime are not modelled.
