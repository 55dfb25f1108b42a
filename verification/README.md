# Coordination and accounting kernels of a trading platform, in Dafny

This project models the parts of the platform where several processes, tasks or transactions share state, and the
arithmetic that turns signals into orders and trades into reports. Each module is one component. Where the program
updates state in place the model is a class or a loop whose `ensures` gives the new state; where several actors
interleave, the component is also a state machine: a total `Step` over events (an impossible event changes nothing)
and a `Run` over every finite event list, so that a theorem about `Run` is a theorem about every schedule.

| module | what it is | main results |
|---|---|---|
| `RateLimiter`, `LimiterCalls`, `LimiterRefill` | token bucket shared through a revisioned key; its calls one by one; what the bucket holds | rate bound over every interleaving, and exactly when it holds; tokens against admissions; when a call fails open; how many tokens an instant gives, exactly |
| `Outbox`, `OutboxLoop`, `OutboxOrder` | relay replicas over locked batches; their loop as a run; the order on the bus | disjoint batches, delivery ledger, exactly-once without rollback, back-off spacing, created order when quiet |
| `Subscription`, `Feed`, `Dispatcher` | refcounts, tracked streams, server view; bounded frame queues; both together | server = holders over reconnects; frame conservation; what a subscriber reads, end to end |
| `ReplayBus` | priority queue with wildcard routing and publishing handlers | order iff nothing is backdated, one delivery per match, termination |
| `Lifecycle`, `Ledger` | trades and position rows, and the state derived from them twice | SQL = Python; consistency iff closes are paired; columns by writer |
| `Buffers`, `Dedup` | bounded windows | window = tail of the unbounded history, over every run |
| `Summary`, `Sizing` | drawdown, sizing, quantization | one-pass loop = maximum over all pairs; orders end to end |
| `Backfill`, `Evaluator` | paging and scoring loops | exactly what is stored; when a signal executes |

`Common` holds `Option`, `Result` and facts about sequence tails, subsequences and finite sets.

## Reading the model

- Decimals, floats and seconds are exact `real`s; candle times are whole minutes. Clocks are shared and never go back; a relay
  replica selects by a reading of the clock that may be old by then.
- I/O is an event or a parameter: publish outcomes, KV answers, REST pages, resolver and condition results.
- `heapq` is the ordered list of what it will yield; `deque(maxlen)`, `OrderedDict` and `asyncio.Queue` are sequences.

## What the proofs show about the code

- Rate limiter: over an existing bucket the bound holds in every run in which the store keeps the key (`RateBound`). It
  holds over all runs exactly when the key holds a decodable bucket that is kept for ever, or the capacity has no room
  for a token (`BoundedIffBucketStays`). The store is set up to drop keys of this bucket ten seconds after their last
  write, so no key is good enough (`ExpiryUnbounded`): a missing or malformed bucket is written blindly, and any number
  of calls can then debit in one instant (`BlindPutsUnbounded`). A run shorter than the age limit is safe
  (`YoungKeyStays`).
- Rate limiter: the comments let a call through after three conflicts. It fails open exactly when its sleeps and
  failed writes make three, so on three conflicts exactly when it never slept (`FailsOpenIff`); three sleeps and no
  conflict are enough (`SleepsAloneFailOpen`).
- Rate limiter: a write whose acknowledgement is lost debits without letting its caller through. A call takes one
  token if it is admitted with one and one more for each lost acknowledgement (`DebitLedger`); it can take three and
  still fail open (`TakesThriceAndFailsOpen`).
- Ledger: the close deletes the position row by (bot, symbol) and does not look at its trade. The ledger stays
  consistent throughout a run exactly when every close names the trade its row points to (`ConsistentIffPaired`); a
  stale close orphans the next trade on the pair (`StaleCloseOrphans`).
- Ledger: fills check the trade, ticks and stop-loss moves do not. They spare the rows of other trades exactly when
  the pair has no row or the row is of their trade (`LateWrites`); after a reopening a late one lands in the new
  trade's row and can change its lifecycle state (`LateWritesLand`).
- Ledger: the comments call the row's writers column-disjoint, but fills and stop-loss moves both write `sl_type`, and
  the later of them wins (`ColumnsByWriter`; `SlTypeCommutes` says when their order does not matter).
- Backfill: the candle at the end of the range is skipped exactly when the candle before it exists and the candles
  before the end fill whole pages (`BackfillSymbol`, `LastCandleSkipped`). The next run starts with it exactly when
  nothing later was stored in between (`SkippedIsNextIff`). The live pipeline stores into the same table, and once it
  has stored a later candle no run ever fetches the skipped one (`MissedForGood`, `SkippedThenMissed`).
- Backfill: the comments promise all missing candles. None of [lo, end) is missing after a run exactly when those up to
  the newest stored candle were there before (`GapFilledIff`).
- Drawdown: the SQL peak starts at the first trade, the loop's at the empty account. They agree exactly when the SQL
  peak is not negative (`QueryMeetsLoop`).
- Replay bus: the comments call its matching NATS-compatible. On the patterns NATS accepts they agree exactly unless a
  final `>` finds no token left (`NatsAgreesIff`, `TailTakesNothing`); a `>` before the end is accepted, and what
  follows it is ignored (`RestIgnored`).
- Relay: the comments promise publication in created order per service. It holds with one replica, nothing raised or
  rolled back and rows created in order (`FifoWhenQuiet`); one raise (`RaiseReorders`) or a second replica
  (`SecondReplicaReorders`) breaks it.
- Quantization: decimal `//` truncates toward zero, so it rounds down exactly on quantities that are not negative or
  on the grid (`RoundsDownIff`), and an order is sized as promised exactly then (`TierOrderIsSized`); a positive
  minimum makes sure of it.
- Evaluator: a rule that becomes true never turns execution into rejection exactly when its weight is not negative
  (`WeightDecides`), whatever the other rules.

## Model

| member | source | states |
|---|---|---|
| `RateLimiter.SleepIsExact` | packages/exchange/rate_limiter.py:196-201 | the wait of an empty bucket is exact: no token before it ends, one when it ends iff the capacity holds one |
| `RateLimiter.RefillAndDebit` | packages/exchange/rate_limiter.py:173-218 | on the answers to its attempts the loop ends at the first that debits, and lets the caller through without one iff none of the three does |
| `RateLimiter.RunKeepsInv` | packages/exchange/rate_limiter.py:174-213 | over every run in which the store keeps the key, what each call in flight knows still holds for the revision it read, and every stretch of debits fits the bucket |
| `RateLimiter.RateBound` | packages/exchange/rate_limiter.py:166-213 | over an existing bucket, whatever its tokens and date, in every interleaving in which the store keeps the key, the debits dated in [t0, t1] number at most capacity + rate * (t1 - t0) |
| `RateLimiter.YoungKeyStays` | infra/nats/bootstrap.sh:85 | the store keeps the key throughout a run that ends before the age limit of what the key held at first |
| `RateLimiter.AdmissionBound` | packages/exchange/rate_limiter.py:166-213 | in those runs the callers let through with a token obey the same bound |
| `RateLimiter.LostRaceDebitsNothing` | packages/exchange/rate_limiter.py:206-212 | a checked write with a stale revision, or on a dropped key, changes neither bucket nor debits and costs its caller one attempt |
| `RateLimiter.AtMostThreeReads` | packages/exchange/rate_limiter.py:174-218 | in every run a call reads at most three times, whatever becomes of its attempts |
| `RateLimiter.BlindPutsUnbounded` | packages/exchange/rate_limiter.py:177-193 | from a missing or malformed key, for every n some run debits n tokens in one instant |
| `RateLimiter.BoundedIffBucketStays` | packages/exchange/rate_limiter.py:177-210 | no run exceeds the bound iff the key holds a decodable bucket to begin with and the store keeps it for ever, or the capacity is below one token |
| `RateLimiter.ExpiryUnbounded` | infra/nats/bootstrap.sh:85 | with any age limit on its keys and any key to start with, no run exceeds the bound iff the capacity is below one token |
| `LimiterCalls.FailsOpenIff` | packages/exchange/rate_limiter.py:174-218 | over every run, a call fails open iff its ended sleeps and failed writes make three; it failed on three conflicts iff it never slept |
| `LimiterCalls.SleepsAloneFailOpen` | packages/exchange/rate_limiter.py:198-201 | for every capacity of at least one token, a run in which a call fails open after three sleeps and no failed write |
| `LimiterCalls.DebitLedger` | packages/exchange/rate_limiter.py:202-213 | over every run and whatever the key holds, tokens taken by a call = 1 if it was admitted with one + its writes that landed unacknowledged; equal iff none was lost; at most three |
| `LimiterCalls.TakesThriceAndFailsOpen` | packages/exchange/rate_limiter.py:206-218 | a run in which one call takes three tokens and is not admitted with any |
| `LimiterCalls.FinishedCallIsLoop` | packages/exchange/rate_limiter.py:174-218 | a call that finished among any others did what the loop does on the answers the shared register gave it |
| `LimiterRefill.DecidesByTokens` | packages/exchange/rate_limiter.py:176-202 | a call that read x tokens dated t decides at u on min(capacity, x + (u - t) * rate), or on a whole capacity without a bucket: below one token it sleeps exactly the missing part, else it writes one token less, checked iff there was a bucket |
| `LimiterRefill.WriteLeaves` | packages/exchange/rate_limiter.py:203-213 | a write takes effect iff it is not refused and its check, if any, meets a key of the revision read; then bucket, revision and debits are exactly those of the write |
| `LimiterRefill.WakesIff` | packages/exchange/rate_limiter.py:198-201 | a sleeper goes on iff its time has come, and is let through after the third attempt |
| `LimiterRefill.OneCall` | packages/exchange/rate_limiter.py:174-213 | an undisturbed call at one instant sleeps iff there is no token, else it is admitted and leaves one token less |
| `LimiterRefill.GivesExactly` | packages/exchange/rate_limiter.py:196-202 | over all runs that keep the key, n tokens can be taken at the first instant u iff n <= min(capacity, x + (u - t) * rate): the bound is met and not exceeded |
| `LimiterRefill.CountIsSize` | packages/exchange/rate_limiter.py:203-205 | the debits counted in a window are those dated in it |
| `Outbox.OutboxDb.InsertOutboxEvent` | packages/outbox/queries.py:62-99 | adds one pending row under an id not used before and touches no other |
| `Outbox.OutboxDb.MarkOutboxEventPublished` | packages/outbox/queries.py:181-201 | sets the publish time of that row; a missing id changes nothing |
| `Outbox.OutboxDb.MarkOutboxEventFailed` | packages/outbox/queries.py:204-244 | counts the attempt, dates it, and fails the row iff the attempts are exhausted |
| `Outbox.OutboxDb.RunOneBatch` | packages/outbox/relay.py:145-210 | over what the pending query returned: all marks of the batch or none of them on cancellation; every delivery up to the cancellation stays on the bus; no row that was not due or was locked is touched |
| `Outbox.OutboxDb.PublishBatch` | packages/outbox/relay.py:157-210 | the serial publish loop: marks row by row, undone together on cancellation; deliveries stay |
| `Outbox.MarkAllAt` | packages/outbox/relay.py:161-201 | each row of the batch gets exactly the mark of its own publish |
| `Outbox.SomeBatch` | packages/outbox/queries.py:136-160 | whatever the table, clock and locks, the query has an answer: the oldest due unlocked rows, oldest first, up to the limit |
| `Outbox.RunKeepsInv` | packages/outbox/relay.py:145-210 | over every run of any number of replicas: row history, batches in flight, locks and the delivery ledger are all consistent |
| `Outbox.InFlightDisjoint` | packages/outbox/queries.py:136-160 | two batches in flight never hold the same row |
| `Outbox.DeliveriesOf` | packages/outbox/relay.py:157-201 | a row in flight is not published and has at most one delivery beyond the rolled-back ones |
| `Outbox.DeliveryAccounting` | packages/outbox/relay.py:145-210 | deliveries of a free row = 1 if committed as published + its deliveries in rolled-back batches; so a published row was delivered at least once |
| `Outbox.ExactlyOnceWithoutRollback` | packages/outbox/relay.py:157-210 | with no cancelled batch, a published row was delivered exactly once and no row more than once |
| `Outbox.BackoffDoubles` | packages/outbox/queries.py:147-149 | the wait after k attempts is min(base * 2^k, cap): it starts at the base and doubles up to the cap |
| `Outbox.DueIff` | packages/outbox/queries.py:142-150 | a row is due iff unpublished, unfailed and never tried or tried at least min(base * 2^k, cap) ago |
| `Outbox.BeginsIff` | packages/outbox/queries.py:136-160 | a batch begins iff it is up to the limit of due, unlocked rows of the service, each once, oldest first, leaving out only rows not older, and those only when full |
| `Outbox.BackoffSumIs` | packages/outbox/queries.py:147-149 | the sum of the waits adds min(base * 2^k, cap) for each attempt k |
| `Outbox.AttemptsRespectBackoff` | packages/outbox/queries.py:142-150 | no row is both published and failed; failed iff attempts reach the maximum; attempts k and k+1 are at least min(base * 2^k, cap) apart; exhaustion takes at least the sum of these |
| `Outbox.SpreadSum` | packages/outbox/queries.py:145-150 | attempts spread by their back-offs are the sum of the back-offs apart end to end |
| `OutboxLoop.LoopIsRun` | packages/outbox/relay.py:145-210 | a replica that selects a batch and runs it alone leaves table, bus, waste and locks exactly as the loop does, committed or cancelled |
| `OutboxLoop.BagIsSent` | packages/outbox/relay.py:161-167 | what that run puts on the bus is what the loop sends |
| `OutboxOrder.OrderIsBus` | packages/outbox/relay.py:157-167 | the deliveries of a run in order are its bus |
| `OutboxOrder.FifoWhenQuiet` | packages/outbox/relay.py:13-17 | with one replica, nothing raised, nothing rolled back and rows created in order, rows reach the bus in created order |
| `OutboxOrder.RaiseReorders` | packages/outbox/relay.py:168-177 | for all settings with a second attempt, a run of one replica in which a failed publish lets a newer row go first |
| `OutboxOrder.SecondReplicaReorders` | packages/outbox/queries.py:151-153 | for all settings, a run in which a second replica skips a locked row and delivers a newer one before it |
| `Subscription.RouteRoundTrip` | packages/market/subscription.py:247-251 | the symbol parsed from a stream name is the symbol it was built for, for every valid symbol and kind |
| `Subscription.ValidSymbolIff` | packages/market/subscription.py:88-90 | a symbol is valid iff it is not empty, ASCII alphanumeric and its own upper case |
| `Subscription.CaseOfLetters` | packages/market/subscription.py:250-251 | case mapping is letter by letter and leaves other characters alone |
| `Subscription.BeforeAtCuts` | packages/market/subscription.py:248-250 | routing cuts at the first at-sign and gives up iff there is none |
| `Subscription.StreamNameSays` | packages/market/subscription.py:298-299 | the only cut of a stream name at its first at-sign has the symbol before it, letter by letter in lower case, and the kind after it |
| `Subscription.StreamNameInjective` | packages/market/subscription.py:298-299 | two stream names are equal iff symbol and kind are |
| `Subscription.BinanceWsClient.constructor` | packages/market/ws.py:81-102 | a disconnected client that tracks nothing and numbers requests from one |
| `Subscription.BinanceWsClient.SendSubscription` | packages/market/ws.py:235-240 | one frame with the next id goes out on the open socket |
| `Subscription.BinanceWsClient.AddStreamTo` | packages/market/ws.py:136-147 | tracks the stream once and subscribes to it iff connected |
| `Subscription.BinanceWsClient.RemoveStreamFrom` | packages/market/ws.py:149-155 | stops tracking the stream and unsubscribes iff connected |
| `Subscription.BinanceWsClient.OnOpen` | packages/market/ws.py:175-181 | a fresh socket gets the whole tracked set in one frame, and none if nothing is tracked |
| `Subscription.ApplyInSync` | packages/market/ws.py:136-155 | adding or removing a stream keeps the server's view equal to the tracked set |
| `Subscription.OpenInSync` | packages/market/ws.py:175-181 | so does a fresh connection |
| `Subscription.ApplyFrames` | packages/market/ws.py:143-155 | a change on a live connection sends exactly one frame with exactly that stream; anything else sends nothing |
| `Subscription.OpenFrames` | packages/market/ws.py:175-181 | a fresh connection gets exactly one frame with everything tracked, or none if nothing is |
| `Subscription.SubscriptionManager.constructor` | packages/market/subscription.py:202-218 | no holders and no feeds |
| `Subscription.SubscriptionManager.Acquire` | packages/market/subscription.py:263-277 | one more holder and feed; the streams are added only for the first holder |
| `Subscription.SubscriptionManager.Release` | packages/market/subscription.py:279-295 | one holder and its feed less; the streams are removed only after the last one; a symbol nobody holds changes nothing |
| `Subscription.RunKeepsInv` | packages/market/subscription.py:263-295 | over every run, counts, feeds, holders, tracked streams and the server's view fit together, even inside an acquire or a release |
| `Subscription.ServerMatchesHolders` | packages/market/ws.py:136-181 | the frames of a live connection leave the server with exactly the tracked streams; at rest these are, for each held symbol and kind, lower-case symbol, at-sign, kind: one for each pair of held symbol and distinct kind |
| `Subscription.WantedSize` | packages/market/subscription.py:269-271 | held symbols times distinct kinds is the number of streams |
| `Subscription.RefcountIsHolders` | packages/market/subscription.py:263-292 | a symbol's count is the number of subscriptions holding it |
| `Subscription.FrameReachesHolders` | packages/market/subscription.py:247-254 | a frame is routed to a feed iff its subscription holds the frame's symbol |
| `Subscription.LeavingIsPrivate` | packages/market/subscription.py:279-290 | with another holder left, a release changes neither the connection nor anybody else's feed; a second release is nothing |
| `Subscription.FinishAppliesAll` | packages/market/subscription.py:269-271 | the stream operations of a lock holder, run to their end, are their composition |
| `Subscription.UndisturbedIsLoop` | packages/market/subscription.py:263-295 | an undisturbed enter or exit of the machine does to the client what acquire and release do |
| `Feed.SymbolFeed.constructor` | packages/market/subscription.py:122-124 | an empty queue of the given size |
| `Feed.SymbolFeed.Put` | packages/market/subscription.py:139-149 | the frame is queued last; a full queue loses its oldest item, and only then is a drop reported |
| `Feed.SymbolFeed.SignalEof` | packages/market/subscription.py:151-159 | the end marker is queued last, evicting the oldest item of a full queue |
| `Feed.SymbolFeed.Next` | packages/market/subscription.py:133-137 | waits on an empty queue, else takes the oldest item; the end marker ends the iteration |
| `Feed.DispatchTo` | packages/market/subscription.py:252-261 | each feed of the symbol gets the frame once, and the drops counted are the feeds that were full |
| `Feed.RunKeepsInv` | packages/market/subscription.py:133-159 | over every schedule the queue is the newest frames, then the end marker |
| `Feed.FramesAccountedFor` | packages/market/subscription.py:252-291 | received frames are an in-order subsequence of those dispatched before the waiting ones; dispatched = received + waiting + overflow + at most one evicted by the end marker |
| `Feed.RoomDropsNothing` | packages/market/subscription.py:139-159 | while there is room, neither a frame nor the end marker drops anything |
| `Feed.FullDropsOldest` | packages/market/subscription.py:143-159 | a full queue drops exactly its oldest item and counts it |
| `Feed.NothingDropped` | packages/market/subscription.py:139-159 | a run of no more events than the queue has places drops nothing |
| `Feed.IterationEnds` | packages/market/subscription.py:279-291 | after a release the iteration ends after exactly the waiting frames, fewer than the queue size |
| `Dispatcher.TargetsAreHolders` | packages/market/subscription.py:247-254 | the manager's list for a frame is exactly the open subscriptions of its symbol, each once |
| `Dispatcher.OfferedOnce` | packages/market/subscription.py:253-254 | the dispatch loop enqueues once to each listed feed and to no other |
| `Dispatcher.RunKeepsInv` | packages/market/subscription.py:252-295 | over every schedule of subscribers, connections, frames and consumers, manager and feeds fit together; a feed is released iff its subscription ended |
| `Dispatcher.DispatchedIsArrived` | packages/market/subscription.py:247-291 | a feed was sent exactly the frames of its symbol that arrived while its subscription was open |
| `Dispatcher.SubscriberReceives` | packages/market/subscription.py:100-120 | a subscriber has read an in-order subsequence of exactly those frames; each was read, waits, or was dropped and counted |
| `ReplayBus.SplitJoin` | packages/bus/replay_bus.py:81-82 | splitting at dots is undone by joining, and no token holds a dot |
| `ReplayBus.MatchesIffFits` | packages/bus/replay_bus.py:73-92 | the token-wise definition holds iff a leading stretch fits one to one and the pattern then ends with the subject or reaches `>` |
| `ReplayBus.MatchSubject` | packages/bus/replay_bus.py:81-92 | the loop on two subjects answers true iff a leading stretch of their tokens fits one to one and the pattern then ends with the subject or reaches `>` |
| `ReplayBus.SubjectMatchesIffFits` | packages/bus/replay_bus.py:73-92 | the same for the predicate that routing uses |
| `ReplayBus.TailTakesNothing` | packages/bus/replay_bus.py:83-85 | a subject followed by `.>` matches the subject itself |
| `ReplayBus.NatsAgreesIff` | packages/bus/replay_bus.py:73-92 | for every pattern with `>` at most in last place, the bus and NATS agree on a subject iff it is not the pattern's other tokens fitted one to one with nothing left for `>` |
| `ReplayBus.RestIgnored` | packages/bus/replay_bus.py:84-85 | what follows a `>` in a pattern makes no difference |
| `ReplayBus.Replay.constructor` | packages/bus/replay_bus.py:102-106 | an open, empty bus |
| `ReplayBus.Replay.PublishTo` | packages/bus/replay_bus.py:108-120 | the message joins the queue under the next number; a closed bus refuses and stays as it was |
| `ReplayBus.Replay.Subscribe` | packages/bus/replay_bus.py:122-138 | an active subscription is appended; a closed bus refuses |
| `ReplayBus.Replay.Close` | packages/bus/replay_bus.py:161-170 | queue and subscriptions are dropped; a second close changes nothing |
| `ReplayBus.Replay.Offer` | packages/bus/replay_bus.py:151-159 | a subscription gets the message iff it is active and matches, and its publications are queued in order |
| `ReplayBus.Replay.Round` | packages/bus/replay_bus.py:149-159 | one round takes the first message and logs exactly its receivers, in subscription order |
| `ReplayBus.Replay.RunUntilEmpty` | packages/bus/replay_bus.py:140-159 | whenever some number of rounds empties the queue, the drain ends there: every message taken once, the log exactly their receivers, in order iff no handler backdates |
| `ReplayBus.EveryMessageOnce` | packages/bus/replay_bus.py:108-159 | after any number of rounds, taken + queued = queued at first + published since, for every message number |
| `ReplayBus.DeliversInOrder` | packages/bus/replay_bus.py:140-159 | messages come in (timestamp, publish order) if no handler publishes an earlier date, and over a whole drain only if |
| `ReplayBus.BeforeIs` | packages/bus/replay_bus.py:116-120 | the timestamp decides the order, and the publish number between equal timestamps |
| `ReplayBus.NumberedInOrder` | packages/bus/replay_bus.py:116-120 | publications are numbered in the order they are made, each with its own timestamp and subject |
| `ReplayBus.OutsInOrder` | packages/bus/replay_bus.py:150-159 | the publications on a message are those of each receiver's handler, one receiver after another, and no other |
| `ReplayBus.ReceiversInOrder` | packages/bus/replay_bus.py:150-159 | receivers get a message in the order of their subscriptions |
| `ReplayBus.LogOnce` | packages/bus/replay_bus.py:150-159 | a delivery is logged as often as its message was taken if the subscription is active and matches, else never |
| `ReplayBus.DeliveredExactlyOnce` | packages/bus/replay_bus.py:148-159 | over a whole drain every message queued or published reaches each active matching subscription exactly once, and no other |
| `ReplayBus.RoundLowersWeight` | packages/bus/replay_bus.py:148-159 | a round lowers the sum of (B+1)^rank over the queue, if handlers publish at most B messages of smaller rank |
| `ReplayBus.DrainTerminates` | packages/bus/replay_bus.py:148-159 | so the drain empties the queue within that many rounds |
| `ReplayBus.WholeDrain` | packages/bus/replay_bus.py:140-159 | conservation and the order equivalence for a finished drain |
| `Lifecycle.BackfillByCases` | migrations/versions/0020_trades_lifecycle_state.py:80-89 | under three-valued logic the CASE is this two-valued decision for all columns, NULL or not |
| `Lifecycle.BackfillAgreesWithDerive` | packages/db/queries/lifecycle.py:66-83 | CASE and function agree for every status and every mixture of NULLs, with or without a row; NULL iff the function raises; never a transient state |
| `Ledger.LedgerDb.InsertTradeRow` | packages/db/queries/execution.py:179-230 | a new open trade under the next id, without fees |
| `Ledger.LedgerDb.InsertPositionState` | packages/db/queries/execution.py:233-269 | the row is inserted iff the pair has none |
| `Ledger.LedgerDb.UpdatePositionStateAfterFill` | packages/db/queries/execution.py:710-768 | subtracts the fill and sets the stop type when given, only for the row's own trade; returns whether it did |
| `Ledger.LedgerDb.UpdatePositionStateMonitorTick` | packages/db/queries/execution.py:883-917 | overwrites the monitor columns of the pair's row |
| `Ledger.LedgerDb.UpdatePositionStateSl` | packages/db/queries/execution.py:923-956 | overwrites stop price and stop type of the pair's row |
| `Ledger.LedgerDb.UpdateTradeFeesIncremental` | packages/db/queries/execution.py:771-797 | adds the delta to the fees, NULL counting as zero |
| `Ledger.LedgerDb.UpdateTradeClose` | packages/db/queries/execution.py:296-347 | closes the trade, stores the reason and overwrites its fees only when a fee is passed |
| `Ledger.LedgerDb.DeletePositionState` | packages/db/queries/execution.py:408-419 | removes the pair's row, whichever trade it belongs to |
| `Ledger.LedgerDb.OpenTx` | migrations/versions/0006_position_state.py:14-15 | trade and row together or neither |
| `Ledger.LedgerDb.CloseTx` | migrations/versions/0006_position_state.py:21-22 | the trade is closed by id, with its reason and fee, and the row removed by pair in one step |
| `Ledger.ColumnsByWriter` | packages/db/queries/execution.py:740-766 | for every interleaving, remaining + counted fills = inserted quantity, monitor = last tick, stop price = last move, stop type = last move or last counted fill that sets it, whichever is later, date = last write that counts |
| `Ledger.InterleavingIrrelevant` | packages/db/queries/execution.py:894-917 | schedules with the same fills, ticks and moves agree on those columns |
| `Ledger.SlTypeCommutes` | packages/db/queries/execution.py:932-949 | a fill and a move commute on the stop type iff the fill is not counted, leaves it alone or writes the same |
| `Ledger.StepConsistentIff` | packages/db/queries/execution.py:408-419 | a transaction keeps the ledger consistent iff, being a close, it names the trade of the pair's row, or the pair has no row and the trade is not open |
| `Ledger.ConsistentIffPaired` | packages/db/queries/execution.py:296-419 | each row points to the one open trade of its pair and each open trade has its row, throughout a run, iff the closes of the run are paired |
| `Ledger.StaleCloseOrphans` | packages/db/queries/execution.py:408-419 | closing an old trade again leaves the pair's new trade open without a row |
| `Ledger.BackfillNeverOrphans` | migrations/versions/0020_trades_lifecycle_state.py:78-93 | in a paired run the join gives each trade exactly one value, that of the function, and never orphaned |
| `Ledger.ReopeningLeavesHistory` | migrations/versions/0020_trades_lifecycle_state.py:90-92 | whatever follows, stale closes included, a closed trade keeps its lifecycle state until it is itself closed again |
| `Ledger.ClosedAsLast` | packages/db/queries/execution.py:315-347 | over every run, a trade that a close found is closed with the reason of the last such close; without one it is open, or an emergency |
| `Ledger.ReconciledIff` | packages/db/queries/lifecycle.py:68-71 | over every run, a trade is reconciled iff the last close of it said reconcile_gone |
| `Ledger.EmergencyLeaves` | services/execution/app/placement_persist.py:284-311 | an emergency leaves a closed trade with its reason and zero fees, and no row |
| `Ledger.RowFollowsWrites` | packages/db/queries/execution.py:740-766 | until its pair is closed, a row is the inserted row under exactly the writes addressed to it |
| `Ledger.LateFillChangesNothing` | packages/db/queries/execution.py:722-734 | a fill carrying another trade changes no table |
| `Ledger.LateWrites` | packages/db/queries/execution.py:883-956 | fills always spare the rows of other trades; ticks and moves do, whatever they write, iff the pair has no row or the row is of their trade |
| `Ledger.LateWritesLand` | packages/db/queries/execution.py:923-956 | after close and reopening, a tick and a move meant for the closed trade land in the open trade's row, and the move changes its lifecycle state |
| `Ledger.FeesAreDeltas` | packages/db/queries/execution.py:309-330 | with closes that pass no fee, fees = what was there + the sum of the deltas; without deltas NULL stays NULL |
| `Ledger.FeesSinceClose` | packages/db/queries/execution.py:331-347 | a close that passes a fee sets the fees to it, and from then on they are that fee plus the deltas |
| `Ledger.SumAnyOrder` | packages/db/queries/execution.py:777-793 | the sum does not depend on the order of the deltas |
| `Buffers.BufferRegistry.constructor` | packages/features/buffers/registry.py:60-71 | pinned capacities, nothing in use |
| `Buffers.BufferRegistry.Acquire` | packages/features/buffers/registry.py:73-90 | a fresh handle and one more count; an empty buffer on the first; errors change nothing |
| `Buffers.BufferRegistry.Push` | packages/features/buffers/registry.py:92-104 | appends within the capacity; a key nobody holds takes nothing |
| `Buffers.BufferRegistry.Release` | packages/features/buffers/registry.py:106-122 | one count less; the last one frees the buffer |
| `Buffers.BufferHandle.constructor` | packages/features/buffers/registry.py:156-160 | an unreleased handle |
| `Buffers.BufferHandle.TailOf` | packages/features/buffers/registry.py:124-184 | the tail of the buffer, or an error once released |
| `Buffers.BufferHandle.Exit` | packages/features/buffers/registry.py:189-198 | releases once; a second exit changes nothing |
| `Buffers.RunKeepsInv` | packages/features/buffers/registry.py:73-122 | over every run, count = live handles and buffer = last capacity candles of the history, key by key |
| `Buffers.CountIsLiveHandles` | packages/features/buffers/registry.py:84-122 | the count of a key is the number of its unreleased handles |
| `Buffers.TailIsRecentHistory` | packages/features/buffers/registry.py:124-139 | a live handle reads the last min(n, capacity) candles pushed since the key's latest first acquire |
| `Buffers.ExitLeavesOthers` | packages/features/buffers/registry.py:189-198 | an exit, once or twice, does not change what another live handle reads |
| `Dedup.DedupingConsumer.constructor` | packages/bus/dedup.py:77-89 | an empty ring of positive capacity |
| `Dedup.DedupingConsumer.Admit` | packages/bus/dedup.py:106-113 | fresh iff the key is not in the ring, and then it joins the ring, evicting the oldest |
| `Dedup.RunKeepsInv` | packages/bus/dedup.py:99-120 | over every schedule the ring is the last capacity accepted keys, and calls are accepted, dropped and handled at most once |
| `Dedup.RingIsRecentKeys` | packages/bus/dedup.py:106-113 | a call is dropped iff its key is among the last capacity accepted keys, else accepted |
| `Dedup.HandledFarApart` | packages/bus/dedup.py:99-120 | two acceptances of one key have at least capacity acceptances between them; only accepted calls are handled, once |
| `Summary.PnlIsWinsMinusLosses` | scripts/backtest.py:331-333 | the result is gross wins minus gross losses, after any number of trades |
| `Summary.GrossIsSum` | scripts/backtest.py:332-333 | gross wins are the sum of the winning trades and gross losses that of the losing ones, as positive amounts |
| `Summary.WinsAreCounted` | scripts/backtest.py:328 | the wins are the number of trades above zero |
| `Summary.ProfitFactor` | scripts/backtest.py:335-340 | undefined iff either side is zero, else the factor times the losses is the wins |
| `Summary.ComputeSummary` | scripts/backtest.py:323-357 | the report: counts, result, rounded ratios, and the true maximum drawdown, with the empty run's defaults |
| `Summary.NearestIsClosest` | scripts/backtest.py:329-340 | rounding moves a number by at most half a step, to the only step closer than that, and a tie to the even step |
| `Summary.Round4IsClose` | scripts/backtest.py:329-340 | a rounded ratio is a whole number of units of the fourth digit, at most half a unit away |
| `Summary.MaxDrawdown` | scripts/backtest.py:342-349 | the one-pass loop returns the maximum of prefix_i - prefix_j over all i <= j, and the highest prefix |
| `Summary.MaxRunningIsPeak` | packages/db/queries/trades.py:255-261 | the query's peak is the highest prefix of at least one trade |
| `Summary.QueryMeetsLoop` | packages/db/queries/trades.py:251-261 | loop peak = max(query peak, 0); peak - current is the final drawdown iff the query peak is not negative, and then at most the maximum drawdown |
| `Sizing.SelectTier` | packages/sizing/compute.py:70-77 | the early-break scan returns the highest tier the equity reaches, and none iff it reaches none |
| `Sizing.TierForIsHighest` | packages/sizing/compute.py:51-77 | the same for the function that the sizing pipeline uses |
| `Sizing.ScoreClamps` | packages/sizing/compute.py:108-115 | a score at a key uses it, one beyond the table uses the nearest end; a gap, no score or no table leaves the notional alone |
| `Sizing.TierSizingEnds` | packages/sizing/compute.py:172-177 | tier sizing skips iff the equity is below every tier, and fails iff it is not and the price is not positive |
| `Sizing.TierQuantityIsWorth` | packages/sizing/compute.py:178-180 | the raw quantity is worth the scaled size of the highest tier reached, or the symbol's cap if that is less |
| `Sizing.RiskQuantityIsWorth` | packages/sizing/compute.py:239-253 | risk sizing skips iff there is no equity, fails iff a parameter is bad, and is else worth equity * risk / stop, or the symbol's cap if that is less |
| `Sizing.QuantizedQty` | packages/exchange/quantize.py:49-54 | an accepted quantity is a multiple of the step, less than a step from the raw one, at least the minimum, and not above the raw one iff that is not negative or on the grid; the exact refusals |
| `Sizing.RoundsDownIff` | packages/exchange/quantize.py:49-54 | truncating division rounds down iff the quantity is not negative or lies on the grid |
| `Sizing.QuantizedPrice` | packages/exchange/quantize.py:82-85 | a multiple of the tick less than a tick away, not above the price for a buy, not below it for a sell |
| `Sizing.PriceRefusedIff` | packages/exchange/quantize.py:82-83 | a price is refused iff the tick is not positive |
| `Sizing.TierOrderIsSized` | packages/sizing/compute.py:172-180 | tier sizing then quantization, for any minimum and cap: step multiple, at least the minimum, within a step below raw, notional within the symbol's cap, iff the raw quantity is not negative or on the grid; a positive minimum implies that |
| `Sizing.RiskOrderIsSized` | packages/sizing/compute.py:239-253 | the same for risk sizing, and always a loss at the stop of at most equity * risk, exactly that before cap and rounding |
| `Backfill.PageFacts` | packages/market/backfill.py:141-149 | a page lists exactly the candles from the cursor to its last one; a short page is all that is left |
| `Backfill.BackfillSymbol` | packages/market/backfill.py:117-159 | the loop ends and stores exactly the candles of [start, end), and the one at end unless the exact skip condition holds; each counted once; other rows untouched |
| `Backfill.NeverUnfinished` | packages/market/backfill.py:201-210 | nothing from the minute in progress on is ever stored |
| `Backfill.EndIsLastClosed` | packages/market/backfill.py:209-210 | the minute after the end of a run is exactly the one in progress |
| `Backfill.ColdStart` | packages/market/backfill.py:176-177 | an empty table starts the given hours before the end |
| `Backfill.LastCandleSkipped` | packages/market/backfill.py:140-158 | for every page limit, a dense gap of exactly one page leaves out the last closed candle |
| `Backfill.SkippedCandleIsNext` | packages/market/backfill.py:140-178 | right after a run that skipped the last candle, before any other write, the next start is that candle |
| `Backfill.SkippedIsNextIff` | packages/market/backfill.py:161-178 | whatever the table holds by then, with the candle missing and the one before it stored, the next start is that candle iff nothing later is stored |
| `Backfill.MissedForGood` | packages/market/ohlc.py:255-266 | once a later candle is stored no run, whatever its end and table, stores a missing earlier one |
| `Backfill.SkippedThenMissed` | packages/market/ohlc.py:255-266 | for every page limit, a run over a dense gap of one page and one live candle after it lose the skipped one for good |
| `Backfill.NoneMissingIff` | packages/market/backfill.py:117-121 | a run from any start leaves no candle of [lo, end) missing iff those before its start were stored |
| `Backfill.GapFilledIff` | packages/market/backfill.py:161-178 | with the start the code computes: iff those up to the newest stored candle were |
| `Backfill.RepeatIsNoop` | packages/db/queries/market_data.py:128-149 | upserting a page again leaves the table unchanged |
| `Evaluator.Evaluate` | packages/scoring/evaluator.py:117-184 | the fold computes the evaluation decided by the first rule that stops it |
| `Evaluator.EvaluationAddsUp` | packages/scoring/evaluator.py:133-184 | total = sum of applied weights; results cover a prefix of the rules, all of them unless one rejected; execute iff active, none rejected and the sum reaches the threshold |
| `Evaluator.OutcomeTable` | packages/scoring/evaluator.py:208-329 | each observation: who rejects and why, the result text, the applied weight and what is recorded |
| `Evaluator.FailsIff` | packages/scoring/evaluator.py:253-256 | the evaluation fails iff a resolver claims success without a value before any rule rejects |
| `Evaluator.SnapshotIsLatest` | packages/scoring/evaluator.py:258-259 | the snapshot holds exactly the features resolved, each with its latest value |
| `Evaluator.MoreTrueStillExecutes` | packages/scoring/evaluator.py:322-329 | for a rule of non-negative weight, making its outcome true never turns execution into rejection |
| `Evaluator.NegativeWeightFlips` | packages/scoring/evaluator.py:322-329 | in every rule list, a rule of negative weight that becomes true turns some execution into rejection |
| `Evaluator.WeightDecides` | packages/scoring/evaluator.py:158-163 | for every rule list and position, executing survives the rule becoming true, whatever was observed, iff its weight is not negative |

## Left out

- Rounding: the 28-digit decimal context, binary floats and NUMERIC column scale; arithmetic is exact.
- ComputeSummary: ratios are rounded from their exact value; the code rounds a binary float close to it.
- ScoreClamps: multipliers are keyed by number, so a key written with leading zeros, which the code would not find again, is not captured.
- Other writers of the limiter's key: nothing but the limiter and the age limit changes it during a run.
- The limiter's two-bucket `acquire` sequence and its pause flag: calls are modelled per key, and keys are independent.
- Relay settings that differ between replicas; replaying rows by hand; the payload and last-error columns.
- A publish that raises although it was delivered.
- Sends that fail, initial streams, and a `close()` while a connection is being opened; non-ASCII case mapping in stream names of foreign frames.
- OnOpen: `order` is any listing of the tracked streams; that it is sorted plays no part.
- DispatchTo: takes the feeds of one symbol as a list without repetitions, which `TargetsAreHolders` shows the manager's list to be.
- NATS subject syntax beyond the place of `>`, such as its ban on empty tokens.
- Handlers of the replay bus that subscribe, deactivate or close while it drains; envelope contents beyond the timestamp.
- RunUntilEmpty: a drain that never ends is not run; the lemmas on any number of rounds cover its beginning.
- Orders, executions and trading events, trade prices and metadata, and the writers of `tp_hit` and `trailing_active`.
- The other callers that pair trades and rows (restart reconciliation, monitoring): they appear as closes, ticks and moves.
- REST and database failures in the middle of a backfill; the history window passed to series conditions.
- Logging, metrics and tracing everywhere.
- Paper exchange adapter, kill switches, leverage cache, pagination, configuration parsing: thin or not part of these kernels.
