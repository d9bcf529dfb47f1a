# TradeDesk verification

A Dafny model of TradeDesk's order-management core: fixed-point money, the order aggregate, the
write-to-read protocol (commands, repository, event bus, position projection) and the two timed guards
(circuit breaker, token bucket). It is proved for every input, every run and every interleaving,
not for chosen cases.

`dafny verify dfyconfig.toml` checks everything.

## What is proved

**Arithmetic.** 64-bit sums, differences and products wrap and are then checked as the program checks them;
the checks are exact except at one operand pair each, and the lemmas name the pair. Scaled division is
*the* rounding half away from zero. Dividing a notional back recovers every price exactly when the
quantity is at least one whole share. Exactly which texts the decimal parser accepts, inner signs and all, and what
each means; parser and printer undo each other for every value but the smallest.

**Orders.** Over every sequence of commands from creation, accepted or refused: status, filled quantity,
average price and version agree; the event log replays to the order; the stored average's drift from the
true cost is bounded although every fill rounds three times and starts from the previous rounded
average; one whole share is exactly the minimum fill size that keeps every average within its fill prices.

**Protocol.** `Desk` is a step system in which any number of clients interleave the steps of PlaceOrder,
CancelOrder and ApplyFill. Every interleaving commits, per order, one legal sequential run of the
aggregate: no update is lost, versions rise by one per commit, nothing unapproved is ever routed or
filled. `EventBus` is a step system of publishers, workers, Subscribe and Close: each subscriber gets every
event once, in each call's order and in the order of a publisher's calls. `System` joins the two with the projection,
a client waiting for its Publish call to return. For every account and symbol, at every point, net quantity,
volume and cost of the stored orders are what is displayed plus what is queued, in a Publish call, dropped by a
closed bus, committed but unpublished, or arrived before its order was announced. `Draining` shows that all of it can always be finished.

**Guards.** Circuit breaker: no admission within a cool-down of a trip, trips at least a cool-down apart.
While half-open, every caller passes until an outcome is reported. Token bucket: tokens are conserved exactly, which bounds every window of every run.

## Where code and documentation differ

The model follows the code. Each difference has a run or an input that shows it, and a theorem that says when the
documented behaviour does hold.

- The bus comment says an order's announcement is always projected before its fills. A saved order is visible
  before its announcement is published, so another client can fill it and publish first, and the projection drops that
  fill for good (`Overtaking.FillOvertakes`). Filling only orders that were routed, or whose placement is over, excludes it
  (`Tracing.CarefulDisplay`). The sharp condition is that the announcement was enqueued before the fill is tried
  (`Announcements.PatientDisplay`): the first fill that breaks it can always end in a drained display short by exactly
  that fill (`Overtaking.FirstLapseLoses`). An id returned for a repeated idempotency key is no sign
  of this, since the key is bound before the announcement is published (`Overtaking.AnsweredUnannounced`); the return
  of PlaceOrder's own Publish is (`Tracing.ReturnedIsSettled`).
- Half-open is documented as one probe. At most one call passes before the next outcome exactly when at most one
  asks (`Breaker.SingleProbeExactly`), and every configuration has runs where any number pass (`Breaker.HalfOpenAdmitsMany`).
- Creation is documented as idempotent. The key is looked up before and bound after, so two placements under way at once
  under one key can always end in two orders unless an id is already taken (`Idempotency.OverlapEverywhere`), and
  non-overlapping ones never do (`Idempotency.PlacedOnce`).
- The average of an order's fills can leave the range of their prices: below one whole share some price always
  escapes (`Vwap.SmallFillEscapes`), from one share on none does (`Vwap.ConvexExactly`).
- The parser's own description is a decimal literal; signs inside the integer part and the fraction are accepted too, and
  a value that fits is refused when its whole part alone does not (`Decimal.InnerSigns`,
  `Decimal.WholePartRefused`, `Decimal.SpellingMeaning`, `Decimal.AcceptsExactly`).
- The printer cannot negate the smallest 64-bit value (`Decimal.SmallestPrintsBadly`), and the overflow checks
  miss one pair each (`Int64.AddI64Exact`, `Int64.MulI64Exact`).

## Model

| member | source | states |
|---|---|---|
| Int64.AddI64Exact | internal/domain/money.go:217-224 | addition is checked exactly if and only if not both operands are the smallest value, where it silently gives 0 |
| Int64.SubI64Exact | internal/domain/money.go:226-233 | subtraction is always checked exactly |
| Int64.MulI64Exact | internal/domain/money.go:235-245 | multiplication is checked exactly if and only if not (smallest, -1), where it gives the smallest value |
| FixedPoint.MulDivRound | internal/domain/money.go:247-271 | truncate-then-correct yields the rounding half away from zero, and fails exactly for divisor 0 or a result outside int64 |
| FixedPoint.RoundIsNearest | internal/domain/money.go:247-271 | that rounding is the unique multiple within half a divisor, ties away from zero |
| FixedPoint.MulQuantityError | internal/domain/money.go:81-89 | a notional is within half a minor unit of price times quantity |
| FixedPoint.DivByQuantityError | internal/domain/money.go:91-102 | an implied price is within half a minor unit of notional over quantity |
| FixedPoint.PriceRoundTrip | internal/domain/money.go:81-102 | dividing a notional by the same quantity of at least one share returns the price |
| FixedPoint.PriceRoundTripExact | internal/domain/money.go:81-102 | the inverse holds for all prices if and only if the quantity is at least one whole share |
| Decimal.ScaleDigits | internal/domain/money.go:208-215 | the loop finds the only d with 2*10^(d-1) <= scale < 2*10^d |
| Decimal.ParseFixed | internal/domain/money.go:128-184 | the padding loop and checked sums compute the specified value or refuse |
| Decimal.FormatFixed | internal/domain/money.go:186-206 | the padding loop renders the specified text |
| Decimal.CombineExact | internal/domain/money.go:172-179 | for every whole part and every fraction a field can hold, signs included, both checked steps are exact and never give the smallest value |
| Decimal.SpellingMeaning | internal/domain/money.go:128-184 | every spelling, with outer space, outer sign and inner signs, means the value of its parts, and is refused exactly when the whole part or the sum leaves int64 |
| Decimal.AcceptedIsSpelled | internal/domain/money.go:128-184 | every accepted text is one of these spellings |
| Decimal.AcceptsExactly | internal/domain/money.go:128-184 | a text is accepted if and only if it is such a spelling of a representable value |
| Decimal.InnerSigns | internal/domain/money.go:156-171 | "--5" is 5 and "1.-5" is 0.95 |
| Decimal.WholePartRefused | internal/domain/money.go:172-175 | "--9223372036854776.999" is refused at scale 1000 although its value fits |
| Decimal.ParseMeaning | internal/domain/money.go:128-184 | an ordinary literal parses to exactly what its digits denote, refused exactly when that overflows |
| Decimal.PrintedShape | internal/domain/money.go:186-206 | the printed form has a minus exactly for negative values, no leading zeros, and all fraction digits of the scale |
| Decimal.PrintThenParse | internal/domain/money.go:128-206 | printing then parsing returns the value if and only if it is not the smallest |
| Decimal.SmallestPrintsBadly | internal/domain/money.go:188-205 | the smallest value prints with inner signs and is refused on reading |
| Decimal.NeverSmallest | internal/domain/money.go:172-183 | no text parses to the smallest value, so the final negation never wraps |
| Decimal.ParsePrintParse | internal/domain/money.go:128-206 | the printed form of any accepted literal denotes the same value |
| Orders.OpensExactly | internal/domain/order.go:33-62 | NewOrder accepts exactly the requests keeping all nine rules |
| Orders.ComplainsExactly | internal/domain/order.go:33-62 | each of the nine errors is answered exactly when its rule is the first one broken |
| Orders.OpenCarries | internal/domain/order.go:63-87 | the new order has every term of the request, nothing filled, and its announcement carries the same values |
| Orders.NamesTellEvents | internal/domain/events.go:5-88 | each kind of event has the name subscribers ask for, and no other kind has it |
| Orders.OpenKeepsLifecycle | internal/domain/order.go:33-87 | a new order satisfies the lifecycle invariant |
| Orders.FillSumsExact | internal/domain/order.go:160-182 | in lifecycle states Fill's checked sums are the exact sums; the blind spot of addition is never hit |
| Orders.ApplyKeepsLifecycle | internal/domain/order.go:100-193 | an applied command keeps the invariant, takes one version, keeps the terms, and moves filled by the event's quantity |
| Orders.AppliesExactly | internal/domain/order.go:100-193 | for each command, the exact condition under which it takes effect: for a fill, its status, signs and quantity, and that the summed notional and the new average, as roundings half away from zero, stay within int64 |
| Orders.RefusesExactly | internal/domain/order.go:100-182 | and exactly which error a refused command is answered with |
| Orders.ApplyLeadsTo | internal/domain/order.go:111-193 | which status each command leads to and the event it raises, with all that event carries |
| Orders.TerminalAbsorbs | internal/domain/types.go:105-126 | a status is terminal if and only if every command is refused in it |
| OrderAggregate.Order.constructor | internal/domain/order.go:279-297 | rehydration restores the snapshot with an empty buffer |
| OrderAggregate.Order.NewOrder | internal/domain/order.go:30-87 | validation in order, then a New order with the terms of the request, buffering its announcement |
| OrderAggregate.Order.PullEvents | internal/domain/order.go:92-98 | hands the buffer over and empties it |
| OrderAggregate.Order.Transition | internal/domain/order.go:100-109 | moves status, time and version together, or changes nothing |
| OrderAggregate.Order.DoAccept | internal/domain/order.go:111-118 | moves the object to Accepted with one version and its own event, as the specification says, or fails without change |
| OrderAggregate.Order.DoReject | internal/domain/order.go:120-127 | moves the object to Rejected with one version and its own event, as the specification says, or fails without change |
| OrderAggregate.Order.DoCancel | internal/domain/order.go:129-136 | moves the object to Canceled with one version and its own event, as the specification says, or fails without change |
| OrderAggregate.Order.DoExpire | internal/domain/order.go:138-145 | moves the object to Expired with one version and its own event, as the specification says, or fails without change |
| OrderAggregate.Order.DoFill | internal/domain/order.go:147-193 | acts as specified; the transition errors it drops never occur |
| OrderHistory.EventTellsAll | internal/domain/order.go:111-193 | the event alone rebuilds the state the command produced; emitted fills have representable notionals |
| OrderHistory.ExecuteCoherent | internal/domain/order.go:33-193 | over every command sequence: replay of the log equals the order, version counts events, filled is the sum of fills, lifecycle holds |
| OrderHistory.VersionCountsApplied | internal/domain/order.go:100-109 | version is the number of effective commands |
| OrderHistory.RunsAreBounded | internal/domain/order.go:147-193 | at most quantity + 1 commands ever take effect |
| OrderHistory.TermsStand | internal/domain/order.go:63-75 | identity and terms never change over any run |
| OrderHistory.LogCompleteIffNothingLost | internal/domain/order.go:92-98 | across pulls and rehydrations the log rebuilds the order if and only if no reload dropped a buffered event |
| OrderHistory.ReloadCanLose | internal/domain/order.go:279-297 | reloading before pulling does lose events |
| Vwap.FillDrift | internal/domain/order.go:167-184 | one fill's three roundings move the average's cost by at most (2000 + new quantity)/2 |
| Vwap.VwapDrift | internal/domain/order.go:160-184 | after any run, twice the distance of average cost from true cost is at most the sum of 2000 + cumulative quantity per fill |
| Vwap.LifeOfAnOrder | internal/domain/order.go:33-193 | for every accepted request and every command sequence: the order keeps the terms of the request and its log announces them first; coherence, version bound, filled bound, drift bound |
| Vwap.VwapConvex | internal/domain/order.go:167-184 | with whole-share fills the average stays within the range of fill prices after any run |
| Vwap.AverageOfALife | internal/domain/order.go:167-184 | the same from creation |
| Vwap.ConstantPrice | internal/domain/order.go:167-184 | fills at one price keep the average exactly there |
| Vwap.SmallFillEscapes | internal/domain/order.go:167-184 | for every accepted order and every size below one share, a first fill at some price of at most a thousand minor units applies and sets an average other than that price |
| Vwap.ConvexExactly | internal/domain/order.go:167-184 | a minimum fill size keeps the average within the fill prices, over all orders, runs and price ranges, if and only if it is at least one whole share |
| Vwap.TinyFillEscapes | internal/domain/order.go:171-184 | an instance: a thousandth of a share at the smallest price drives the average to 0 |
| Masks.NextPow2 | internal/adapters/memory/repository.go:134-144 | the loop returns the least power of two at least n, and at least 1 |
| Masks.NextPow2Terminates | internal/adapters/memory/repository.go:139-142 | the 64-bit shifting loop can stop if and only if n <= 2^62 |
| Masks.MaskIsModulo | internal/adapters/memory/repository.go:48-53 | masking with size - 1 is the remainder modulo the size, so the index is in range for any hash |
| Repository.OrderRepository.constructor | internal/adapters/memory/repository.go:33-46 | the least power-of-two number of empty shards covering the request |
| Repository.OrderRepository.Save | internal/adapters/memory/repository.go:55-72 | inserts into the flat map and binds the key, or reports a duplicate and changes nothing |
| Repository.OrderRepository.Update | internal/adapters/memory/repository.go:74-89 | replaces the order in the flat map exactly when the stored version is the expected one |
| Repository.OrderRepository.Get | internal/adapters/memory/repository.go:91-101 | reads the flat map |
| Repository.OrderRepository.FindByIdempotencyKey | internal/adapters/memory/repository.go:103-109 | a bound key is not empty and always names a stored order, so the Get that follows succeeds |
| Repository.OrderRepository.Collect | internal/adapters/memory/repository.go:113-120 | the shard loops gather every stored order exactly once |
| Repository.OrderRepository.List | internal/adapters/memory/repository.go:111-132 | distinct stored orders, newest first, of the right number, none omitted being newer than one returned |
| Desk.CommitReplacesRead | internal/adapters/memory/repository.go:74-89 | in every reachable state a successful Update replaces exactly the snapshot its client read, adds one version and one command, and touches nothing else |
| Desk.MatchMeansUnchanged | internal/adapters/memory/repository.go:80-86 | versions match if and only if the stored order is the one that was read |
| Desk.HistoriesAreSequential | internal/app/service.go:162-206 | in every interleaving each stored order is the result of its committed commands run in sequence, with replay, version and fill sums agreeing |
| Desk.StoredDrift | internal/app/service.go:180-206 | the drift bound holds for every stored order under concurrency |
| Desk.FailClosed | internal/app/service.go:86-118 | whatever was routed is stored; routed or filled orders passed an error-free approval; orders enter at version 1 as Accepted or Rejected; a Rejected one never changes |
| Desk.StatusTells | internal/app/service.go:93-206 | in every interleaving a stored order is Canceled exactly when its last committed command is a cancel, filled or partly filled exactly when it is a fill, Accepted or Rejected exactly while only the verdict was committed, and never New or Expired |
| Desk.RejectionSaysWhy | internal/app/service.go:94-104 | a rejection carries the risk system's reason, or that the check was unavailable |
| Idempotency.PlacedOnce | internal/app/service.go:73-110 | with non-overlapping placements per key: one order per key, one answer per key, bindings name stored orders |
| Idempotency.BindingsNeverChange | internal/adapters/memory/repository.go:66-70 | once bound, a key keeps its order for the rest of the run |
| Idempotency.OverlapCreatesTwo | internal/app/service.go:76-106 | overlapping placements under one key create two orders and answer both |
| Idempotency.OverlapEverywhere | internal/app/service.go:76-106 | the discipline cannot be relaxed: from any reachable state with two placements under one key under way, each looked up, built or saved, the run can go on to create and answer two orders unless an id is taken |
| Ledger.CommittedPut | internal/adapters/memory/repository.go:87-88 | committing to one order moves the account's totals by that order's change alone |
| Ledger.CommittedIsStored | internal/app/service.go:180-206 | the committed net quantity and volume are those the stored orders show, the committed cost that of their executions |
| Ledger.StepKeepsBooks | internal/app/service.go:162-206 | every step keeps committed net quantity, volume and cost equal to handed-over plus still-held fill events |
| EventBus.ReachableInv | internal/adapters/memory/eventbus.go:37-92 | the bus invariant holds in every reachable state |
| EventBus.FifoExactlyOnce | internal/adapters/memory/eventbus.go:49-75 | handled, in hand and queued make up the accepted sequence; each finished call contributed all wanted events in its own order |
| EventBus.DeliveredExactly | internal/adapters/memory/eventbus.go:59-75 | of a finished call's events a subscriber was sent exactly those of its name, or all for the wildcard |
| EventBus.SubscriberGets | internal/adapters/memory/eventbus.go:37-47 | a new subscriber is sent, for the rest of the run, only events of the name it gave, from later calls |
| EventBus.CloseCloses | internal/adapters/memory/eventbus.go:80-92 | Close closes the bus and every channel |
| EventBus.ClosedForGood | internal/adapters/memory/eventbus.go:59-92 | a closed bus stays closed: no subscriber is sent anything more and every later call is refused |
| EventBus.CallsInOrder | internal/adapters/memory/eventbus.go:59-75 | once a call has returned it adds nothing more, and whatever later calls send lies behind all it sent, for every subscriber and every continuation |
| EventBus.NoDuplicates | internal/adapters/memory/eventbus.go:59-75 | no subscriber is given the same event of a call twice |
| EventBus.LedgerKept | internal/adapters/memory/eventbus.go:52-75 | the wait group counts exactly pending sends, queued and being handled |
| EventBus.SendsAreSafe | internal/adapters/memory/eventbus.go:71-91 | no send meets a closed channel and the wait group never goes negative |
| EventBus.WaitMeansDrained | internal/adapters/memory/eventbus.go:77-78 | Wait can return if and only if everything accepted is handled and no send is pending |
| EventBus.WorkersAlwaysDrain | internal/adapters/memory/eventbus.go:49-57 | every run of worker steps, closed or not, uses up the remaining work one step at a time, and wherever no worker can move everything accepted has been handled |
| EventBus.WorkersDrain | internal/adapters/memory/eventbus.go:49-92 | from every such state, closed or not, a run of workers alone finishes everything accepted |
| EventBus.PublishNeverStuck | internal/adapters/memory/eventbus.go:59-75 | bounded queues never deadlock a publisher: from every reachable state its call and the workers alone can bring it to its return |
| ReadModel.PositionReadModel.Project | internal/adapters/memory/readmodel.go:41-53 | folds one event into the view as specified |
| ReadModel.PositionReadModel.ApplyFill | internal/adapters/memory/readmodel.go:55-82 | folds one execution, ignoring fills of unknown orders |
| ReadModel.PositionReadModel.Positions | internal/adapters/memory/readmodel.go:84-106 | one row per traded symbol, each with the right texts |
| ReadModel.ProjectionExact | internal/adapters/memory/readmodel.go:41-82 | for every event sequence each position holds net, notionals and volume of exactly its attributable executions, modulo 2^64 |
| ReadModel.AverageError | internal/adapters/memory/readmodel.go:73-97 | the shown average's error is at most 500 per execution plus half the volume, without compounding |
| ReadModel.RowsReadBack | internal/adapters/memory/readmodel.go:84-106 | a row is of its account and symbol; its texts parse back to the numbers, three and four decimals, if and only if these are not the smallest; no volume or no representable average shows 0 |
| System.ClientsInOrder | internal/app/service.go:108-118 | a client's next events reach every subscriber behind all events of its previous call |
| System.Conservation | internal/app/service.go:195-204 | stored net quantity, volume and cost each equal what the projection has handled plus queued plus in calls plus dropped plus unpublished, in every interleaving |
| System.DisplayedQuantity | internal/adapters/memory/readmodel.go:55-82 | the displayed quantity as one equation, including fills that arrived before their announcement |
| System.DrainedDisplay | internal/adapters/memory/readmodel.go:55-82 | drained and open, the displayed quantity is stored buys minus sells less the fills that came too early, modulo 2^64; with announcements first, less nothing |
| System.DisplayedAverage | internal/adapters/memory/readmodel.go:77-97 | no notional is ever skipped for emitted fills, so the average covers the whole traded quantity within the error bound |
| System.DrainedAverage | internal/adapters/memory/readmodel.go:77-97 | drained, open and announced first, the volume is the whole filled quantity of the stored orders, and the average is within the bound of the exact cost of all their fills |
| Draining.CanSettle | internal/adapters/memory/eventbus.go:49-92 | from every reachable state a run that begins nothing new publishes everything committed, returns every call and handles everything sent |
| Announcements.PatientDisplay | internal/app/service.go:106-118 | if fills are tried only on orders whose announcement was enqueued, the drained display is the stored quantity |
| Tracing.AnnouncedOnce | internal/app/service.go:106-110 | every stored order is announced in exactly one place, a client's outbox or a Publish call |
| Tracing.ReturnedIsSettled | internal/app/service.go:110-118 | a client back from the Publish call of its placement leaves its order settled: no placement of it is under way anywhere |
| Tracing.SettledForGood | internal/app/service.go:106-118 | a settled order stays settled for the rest of the run |
| Tracing.RoutedIsAnnounced | internal/app/service.go:106-118 | an order that was routed, or is settled, has been announced to the projection |
| Tracing.CarefulDisplay | internal/app/service.go:106-118 | so filling only such orders makes the drained display the stored quantity, in every interleaving |
| Overtaking.UnannouncedFillIsLost | internal/adapters/memory/readmodel.go:57-62 | from every reachable state where a client is about to fill an unannounced order, some run ends drained with that fill missing from the traded volume |
| Overtaking.FirstLapseLoses | internal/adapters/memory/readmodel.go:57-62 | the first fill that breaks the discipline can end in a drained, open bus with every position short by exactly that fill |
| Overtaking.FillOvertakes | internal/app/service.go:106-110 | with two clients and one order a run ends drained with the fill stored and nothing displayed |
| Overtaking.AnsweredUnannounced | internal/app/service.go:76-110 | a run in which a repeated key is answered with an accepted order that has not been announced |
| Service.Service.PlaceOrder | internal/app/service.go:65-119 | the whole command on the real objects: refused by the limiter without effect, a bound key answered with its order, an unbuildable request with its own reason, a taken id as a duplicate, and none of these changing anything; otherwise the order stored carries what the texts name, announcement and ruling are published, it is routed exactly when accepted, and accepted exactly on an admitted approval; the breaker touched exactly when the risk check is reached |
| Service.BuildHonours | internal/app/service.go:121-146 | the order built has the symbol, side, type and time in force the texts name, the quantity in thousandths and the limit price in ten-thousandths |
| Service.LiteralQuantity | internal/app/service.go:135-138 | an ordinary quantity literal is stored as what its digits say, in thousandths |
| Service.BuildsExactly | internal/app/service.go:121-146 | exactly which requests build an order |
| Service.BuildRefusesWith | internal/app/service.go:121-146 | exactly which reason each other request is refused with |
| Service.GuardedCounts | internal/resilience/circuitbreaker.go:112-125 | a risk error counts as a failure, any verdict as a success, and a check that is not let through as nothing |
| Types.ParseSymbol | internal/domain/types.go:77-89 | the loop accepts exactly one to eight capital letters after trimming and upper-casing |
| Types.NamesRead | internal/domain/types.go:14-72 | the eight names are read as what they name |
| Types.OnlyNamesRead | internal/domain/types.go:14-72 | and nothing else is read, up to space and letter case |
| Types.SymbolsAreFixed | internal/domain/types.go:77-89 | reading a symbol that was read returns it unchanged |
| Types.SpellingIsFree | internal/domain/types.go:14-89 | surrounding space and letter case change no side, order type, time in force or symbol |
| Service.Service.BuildOrder | internal/app/service.go:121-150 | symbol, side, type, time in force, quantity and price parsed in that order, then validated |
| Service.Service.CheckRisk | internal/resilience/circuitbreaker.go:112-125 | the guarded call: skipped when open, recorded otherwise |
| Service.Service.CancelOrder | internal/app/service.go:162-178 | success exactly when the order is there and working: then it alone is Canceled, one version on, with one event published; NotFound exactly when it is not there, otherwise the aggregate's error; a failure changes nothing |
| Service.Service.ApplyFill | internal/app/service.go:180-206 | the literals refused first, in thousandths and ten-thousandths; success exactly when the order is there and the fill may be applied: then it alone gains the quantity, one version on, with one event published; NotFound, the aggregate's error and failures as for cancelling |
| Service.ChangedTruly | internal/app/service.go:162-206 | the specified change on the flat store keeps lifecycles and is answered as above |
| Service.ChangeIsDeskRun | internal/app/service.go:162-206 | an undisturbed change is a run of the step system with the same store and events, answered with success exactly when it may be applied |
| Service.PlaceIsDeskRun | internal/app/service.go:65-119 | every undisturbed placement past the limiter, whether its key is repeated, its request invalid, its id taken or its order created, is a run of the step system with the same store, keys, events, routing and answer |
| Breaker.CircuitBreaker.constructor | internal/resilience/circuitbreaker.go:58-80 | defaults for non-positive settings, closed at first |
| Breaker.CircuitBreaker.Refresh | internal/resilience/circuitbreaker.go:91-98 | open becomes half-open after the cool-down |
| Breaker.CircuitBreaker.Allow | internal/resilience/circuitbreaker.go:127-133 | admits unless open after refreshing |
| Breaker.CircuitBreaker.Record | internal/resilience/circuitbreaker.go:135-161 | folds an outcome as specified |
| Breaker.CircuitBreaker.Trip | internal/resilience/circuitbreaker.go:163-168 | opens, stamps the time, clears failures |
| Breaker.RunKeeps | internal/resilience/circuitbreaker.go:91-168 | over every run with an advancing clock: closed failures are the trailing failures and below threshold, half-open successes are those since it began and below threshold, trips a cool-down apart |
| Breaker.AdmissionsRespectCooldown | internal/resilience/circuitbreaker.go:127-133 | every admission is at least a cool-down after every earlier trip, late outcomes included; a call is denied exactly while open within the cool-down of the last trip |
| Breaker.TripRate | internal/resilience/circuitbreaker.go:163-168 | n trips span at least n - 1 cool-downs |
| Breaker.TripsOnThreshold | internal/resilience/circuitbreaker.go:139-149 | while closed, an outcome trips exactly when it completes the threshold of consecutive failures, and then stamps its time and clears the failures |
| Breaker.ClosesOnThreshold | internal/resilience/circuitbreaker.go:135-161 | while half-open only successes were reported since it began; an outcome closes the breaker, failures forgotten, exactly when it is the threshold's success, and a failure always trips |
| Breaker.HalfOpenBegins | internal/resilience/circuitbreaker.go:91-98 | half-open begins exactly when somebody looks at an open breaker after the cool-down of its last trip |
| Breaker.Recovers | internal/resilience/circuitbreaker.go:135-168 | under every configuration some run trips, becomes half-open and closes again |
| Breaker.WithDefaults | internal/resilience/circuitbreaker.go:58-70 | each setting is kept when it is usable and otherwise is 5 failures, 1 success, 5 seconds |
| Breaker.HalfOpenAdmitsAll | internal/resilience/circuitbreaker.go:127-133 | from every half-open point of every run, until an outcome is reported every call that asks is admitted and nothing changes |
| Breaker.SingleProbeExactly | internal/resilience/circuitbreaker.go:127-133 | so at most one probe passes if and only if at most one call asks |
| Breaker.HalfOpenAdmitsMany | internal/resilience/circuitbreaker.go:91-168 | under every configuration and for every n some run reaches half-open and has n calls admitted before any outcome |
| Limiter.RateLimiter.constructor | internal/resilience/limiter.go:20-40 | a full bucket with corrected capacity and rate |
| Limiter.RateLimiter.Refill | internal/resilience/limiter.go:54-66 | adds accrued tokens up to capacity, nothing when the clock has not advanced |
| Limiter.RateLimiter.Allow | internal/resilience/limiter.go:42-52 | takes a token when there is a whole one |
| Limiter.TokenBalance | internal/resilience/limiter.go:42-66 | admitted plus remaining plus spilled tokens equal initial plus accrued, over every run, even if the clock steps back |
| Limiter.WindowBound | internal/resilience/limiter.go:42-66 | any window admits at most capacity plus rate times the advance of the limiter's clock |
| Limiter.PacedAllButFirst | internal/resilience/limiter.go:42-66 | from any point of any run, of calls at least 1/rate apart only the first can be denied, exactly when no whole token is there for it |
| Limiter.PacedNeverDenied | internal/resilience/limiter.go:42-66 | so from a bucket holding a whole token such calls are never denied |

## Left out

- GraphQL schema, HTTP server, configuration, metrics and logging: plumbing without state of its own.
- Risk scoring (internal/adapters/ai/analyzer.go): the risk answer is an arbitrary input.
- The venue test double, retries, timeouts and the bulkhead: routing is a step that may be repeated; timers and jitter are not modelled.
- FNV-1a, UUID generation and the wall clock: an arbitrary hash function, arbitrary ids with an explicit duplicate error, and clock readings as inputs.
- Upper: gives the upper-case form of the characters that become the letters A to Z; for other characters it only keeps them outside the alphabet, which is all the parsers ask.
- Go strings are taken as sequences of Unicode characters; texts that are not valid UTF-8 are not modelled.
- The order version is an unbounded integer. It is bounded by quantity + 1, so a 64-bit counter could wrap only for an order of the largest quantity filled one unit at a time.
- The event bus and the write-side protocol are step systems on values, not objects with locks: each step is atomic under the lock the program holds, and data races are not modelled. Close may take its lock without having waited first, which only adds runs.
- The breaker's state-change callback is not modelled.
- sort.Slice is replaced by an insertion sort with the same promise, a sorted permutation.
- NextPow2: requires n <= 2^62, because beyond it the program's loop does not terminate, as NextPow2Terminates states.
- TokenBalance: uses real numbers and does not model floating-point rounding of tokens.
- PlacedOnce: holds for placements that do not overlap under one key, because two that overlap can end in two orders, as OverlapEverywhere states.
- PacedAllButFirst: needs a clock that does not step back between the calls.
