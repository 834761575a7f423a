# DouyinMall backend: a verified model

This project models the parts of the mall backend whose correctness depends on interleaving, retries
or arithmetic, and proves what they keep. Every statement holds for all inputs, all runs or all
reachable states; where the code does not keep what one would expect of it, the exact condition is
proved, together with a concrete case that breaks it.

`dafny verify dfyconfig.toml` checks everything.

## What is modelled

**The per-activity consumer** (`backend/pkg/activityconsumer`). Handlers, pool workers, mailbox readers
and any number of collectors run interleaved; one step is one lock operation, one critical section, one
counter update or one pool submission. The pool may refuse any submission. `ConsumerSystem` is the step
system, `ConsumerLocks` to `ConsumerRuns` its invariant, and `ConsumerTheorems`, `ConsumerCounters`,
`ConsumerOrder`, `ConsumerSerial`, `ConsumerProgress`, `ConsumerBound`, `ConsumerPasses` and
`ConsumerClosing` what follows: nothing lost or duplicated, exact slot accounting, no stale state object,
agreement of the counters, first in first out, serial processing with limit one, no deadlock and no
livelock, complete collector passes that remove exactly what has expired, nothing let in after a close.
`ConsumerStranding` is a run that shows what refusals can do, and `ConsumerWaiting` says exactly when they
do it. `ActivityState` and `Consumer` are the same code as classes, the mailbox being an array that is
shifted in place; their methods are proved against the functions that the step system uses for its
critical sections.

**Orders** (`Orders`, `Timeouts`). The status graph, the two transactions that change a status
together with its outbox row, and the job that cancels unpaid orders while payments arrive.

**Outbox workers** (`Outbox`). Paging with a moving offset over a set that shrinks meanwhile, retry
counting, giving up.

**Payments** (`Payments`, `Money`). The payment status machine, which results commute, the callback's
outbox rows, and the text form of amounts.

**Checkout** (`PlaceOrder`, `PlaceOrderTheorems`, `PlaceOrderUseCase`, `Coupons`, `Adapters`, `OrderIds`).
The place-order saga with its compensations, run by any number of requests at once; all-or-nothing coupon
reservation; proportional discounts; order ids.

**Product price cache** (`PriceCache`, `PriceCacheTiming`, `PriceCacheSafety`). Readers fill, a writer
deletes twice; what the delay of the second delete has to achieve, and what the rows that are never
deleted need, is characterised exactly.

**The keyed pool** (`KeyedPool`). Permits by key, and a close that waits for accepted tasks.

Where the code calls a database, a cache or another service, the model has an atomic operation with
the contract of the repository's own implementation of it (cited in each file's header), or a
parameter that says how the call ends. The classes that run over a step system let arbitrary steps of
others happen between any two of their own calls.

## What the code does not keep

Each of these comes with the exact condition and with a concrete input or run.

- A refused submission can leave an accepted message waiting in a mailbox beside free slots. At the
  critical sections a refused batch always breaks work conservation and a refused direct submit breaks
  it exactly when somebody waits (`ActivityStates.RefusalStrands`); without refusals it always holds
  (`ConsumerOrder.WorkConservingFifo`). `ConsumerStranding.StrandingReachable` is a run that ends so,
  with every thread at its end. Over whole runs: an activity without a slot holder has tasks waiting
  exactly when the last release of one of its slots was a rollback that left somebody waiting
  (`ConsumerWaiting.StrandedIff`, `ConsumerWaiting.StrandedAtRestIff`).
- Order ids repeat exactly when a call that had to wait for the next millisecond is followed by one that
  reads that very millisecond, which the wait does not store (`OrderIds.IncreasingIff`);
  `OrderIds.SameIdTwice` is such a run. The saga relies on ids that do not repeat: a second request with
  the id of a live order is told that it has stock, and when it fails it gives back the stock of the first
  (`PlaceOrderTheorems.RepeatedIdTakesStockBack`).
- Payment results do not commute exactly when a failure meets a refund (for a failed payment: a success
  meets a refund) (`Payments.ConvergesIff`, `Payments.FailureMeetsRefund`).
- Discount shares are kept by product. They add up to the discount exactly when there is nothing to
  share out, or a total to share by and no product that comes again with an earlier share of at least
  one (`Adapters.DiscountExactIff`, `Adapters.TwoSkusLoseAShare`).
- The quantity taken from stock is 32 bits wide: it is the ordered one exactly when the sum over the SKUs
  fits (`Adapters.ToInventoryStockItems`, `Adapters.HugeOrderTakesNothing`).
- The check of a notified amount accepts every number within half a cent of the stored one, not only
  that amount (`Money.AcceptsIff`, `Money.AcceptsTenthsOfCents`).
- The entry of a live SKU is safe from staying stale exactly when no delayed delete comes while an older
  fill is on its way that no newer update's delayed delete will follow (`PriceCacheSafety.SafeIff`,
  `PriceCache.SlowFillStaysStale`). The entry of a product's own row is never deleted: it is safe exactly
  when no update of the product or of one of its SKUs comes while a price of that row is cached or on its
  way into the cache (`PriceCacheSafety.SafeIff`, `PriceCacheTiming.OwnStep`,
  `PriceCacheSafety.OwnRowStaysStale`).
- A drain of the delay queue that meets an error after its first claim loses what it claimed; it meets
  it exactly when that many full claims are due (`Timeouts.DispatchOrderTimeoutJob.DrainDue`,
  `Timeouts.DrainLoses`).
- An order outbox row cannot be given up: MarkFailed there names no table, so it never takes effect
  (`backend/internal/order/infra/repository/outbox.go:119-130`). Then exactly the rows that are never
  delivered stay pending (`Outbox.OutboxWorkerJob.RunTimes`, `Outbox.RefusedRowStaysPending`).

## Model

| member | source | states |
|---|---|---|
| ActivityStates.ActivityState.AdmitTask | backend/pkg/activityconsumer/consumer.go:82-111 | the switch of HandleMessage on the in-place state equals the value-level decision: direct below the limit, else busy, full or enqueued |
| ActivityStates.ActivityState.Enqueue | backend/pkg/activityconsumer/state.go:36-39 | appending keeps the mailbox a sequence with the task last, also when the backing array is replaced |
| ActivityStates.ActivityState.PrependBatch | backend/pkg/activityconsumer/state.go:41-52 | a returned batch stands before the mailbox, in its order |
| ActivityStates.ActivityState.DrainMailbox | backend/pkg/activityconsumer/state.go:54-72 | copying out and shifting inside the same array takes a prefix as long as there is room and reserves its slots |
| ActivityStates.DrainShape | backend/pkg/activityconsumer/state.go:54-72 | the drained batch followed by what is left is the old mailbox, and its length is the smaller of room and mailbox |
| ActivityStates.RollbackUndoesDrain | backend/pkg/activityconsumer/consumer.go:165-181 | a drain whose whole batch is refused is undone exactly: same slots, same mailbox order |
| ActivityStates.PartialRollback | backend/pkg/activityconsumer/consumer.go:137-148 | when only a tail is refused, the accepted head keeps its slots and the rest is in its old order |
| ActivityStates.FinishRecovers | backend/pkg/activityconsumer/consumer.go:204-223 | every critical section of onTaskDone leaves the mailbox empty or the limit full, whatever state it found |
| ActivityStates.RefusalStrands | backend/pkg/activityconsumer/consumer.go:150-181 | a refused batch always breaks work conservation, a refused direct submit exactly when somebody waits |
| ActivityStates.RefusalStrandsAWaitingTask | backend/pkg/activityconsumer/consumer.go:165-181 | a concrete stranding: an empty set of slot holders beside a waiting task |
| Consumers.Consumer.HandleMessage | backend/pkg/activityconsumer/consumer.go:70-112 | nil means submitted with a slot or last in the mailbox; every error leaves slots and mailbox as they were and happens exactly under its condition; other activities are untouched |
| Consumers.Consumer.SubmitMailboxBatch | backend/pkg/activityconsumer/consumer.go:137-148 | the accepted prefix is submitted in order, the rest goes back to the front with its slots released |
| Consumers.Consumer.OnTaskDone | backend/pkg/activityconsumer/consumer.go:204-223 | exactly the head of the mailbox that fits and is accepted gets the freed slots, in order; the remaining mailbox is unchanged, and the activity counts as touched then, or at the rollback if there was one |
| Consumers.Consumer.RunGC | backend/pkg/activityconsumer/gc.go:60-77 | an entry goes exactly if its activity has no slot holder and nobody waiting and was last touched longer ago than the TTL; the others stay as they were |
| Consumers.Consumer.Close | backend/pkg/activityconsumer/consumer.go:114-123 | it is closed afterwards and has lost no state |
| ConsumerLocks.LocksTakenWhenFree | backend/pkg/activityconsumer/consumer.go:18-25 | no step of any thread acquires a lock another thread holds |
| ConsumerLocks.CollectorAlone | backend/pkg/activityconsumer/gc.go:60-76 | a collector that holds both locks of an entry is the only thread with a pointer to it |
| ConsumerLocks.CurrentPreserved | backend/pkg/activityconsumer/consumer.go:225-263 | in every step, every pointer to a state object that a thread holds stays the one in the shard map |
| ConsumerRuns.NeverMissing | backend/pkg/activityconsumer/consumer.go:239-250 | a worker or a rollback that looks its state up finds it |
| ConsumerRuns.InvPreserved | backend/pkg/activityconsumer/consumer.go:70-223 | mutual exclusion, current pointers, the place of every message and the slot counts survive every step of every thread |
| ConsumerTheorems.MessageConservation | backend/pkg/activityconsumer/consumer.go:70-223 | in every reachable state an accepted message is in exactly one of mailbox, one worker's batch, pool, completed; a refused one is in none |
| ConsumerTheorems.NoCopies | backend/pkg/activityconsumer/state.go:36-72 | no mailbox and no batch holds a message twice |
| ConsumerTheorems.RestConservation | backend/pkg/activityconsumer/consumer.go:183-223 | when all workers have ended, an accepted message is completed or still in its mailbox, never neither |
| ConsumerTheorems.NoPanic | backend/pkg/activityconsumer/consumer.go:239-250 | the panic of lockExistingState is unreachable |
| ConsumerTheorems.SlotAccounting | backend/pkg/activityconsumer/state.go:54-72 | inflight is exactly the number of direct reservations, drained unsubmitted tasks and tasks in the pool, within the limit; mailbox plus drained tasks stay within mailbox size plus limit, refusals or not |
| ConsumerTheorems.ClampsNeverFire | backend/pkg/activityconsumer/consumer.go:150-213 | the zero clamps of both rollbacks and of onTaskDone never apply |
| ConsumerTheorems.StatePinned | backend/pkg/activityconsumer/gc.go:60-77 | while a slot or mailbox entry is outstanding along a run, the activity's state object stays in its map and is never replaced |
| ConsumerTheorems.CollectedIsUnused | backend/pkg/activityconsumer/gc.go:60-77 | a collector removes an entry only when no message of its activity is anywhere |
| ConsumerPasses.CompletePass | backend/pkg/activityconsumer/gc.go:60-77 | a collector that has come to its end has locked every shard and decided, under both locks, on every entry that it found in a shard when it locked it |
| ConsumerPasses.RemovedIff | backend/pkg/activityconsumer/gc.go:65-72 | after any run a collector removes the entry it has locked if and only if no task of the activity holds a slot or waits and its last critical section is longer before the time of the pass than the TTL; no other entry goes |
| ConsumerClosing.RefusedAfterClose | backend/pkg/activityconsumer/consumer.go:70-73 | in every continuation of a Close, a HandleMessage that begins then ends with an error |
| ConsumerClosing.NoneAfterRelease | backend/pkg/activityconsumer/consumer.go:114-123 | once the pool is released no submission is accepted any more |
| ConsumerCounters.CounterAgreement | backend/pkg/activityconsumer/consumer.go:88-109 | each counter plus the updates still owed by threads past their unlock equals the sum over all activities |
| ConsumerCounters.ActiveCountsEntries | backend/pkg/activityconsumer/gc.go:60-76 | active activities equals the number of map entries whenever no shard lock is held |
| ConsumerOrder.ProcessedAtMostOnce | backend/pkg/activityconsumer/consumer.go:183-202 | process is called at most once per message, never for a refused one, and for every completed one |
| ConsumerOrder.WorkConservingFifo | backend/pkg/activityconsumer/consumer.go:82-111 | without refusals a non-empty mailbox means the limit is reached, slots are given in acceptance order, and the mailbox keeps its bound |
| ConsumerOrder.SubmitsInOrder | backend/pkg/activityconsumer/consumer.go:137-148 | a worker hands its drained batch to the pool from the front |
| ConsumerSerial.SerialInAcceptanceOrder | backend/pkg/activityconsumer/consumer.go:204-223 | with limit one and no refusal, processing is serial and in acceptance order |
| ConsumerProgress.WaitChains | backend/pkg/activityconsumer/consumer.go:18-25 | whoever is waited for can step or waits for one that can: wait chains have length at most two |
| ConsumerProgress.DeadlockFree | backend/pkg/activityconsumer/consumer.go:225-263 | in every reachable state with an unfinished thread some thread can step |
| ConsumerProgress.RestWithoutRefusals | backend/pkg/activityconsumer/consumer.go:204-223 | at rest, a pool that refused nothing has left nothing behind: every accepted message is completed |
| ConsumerStranding.StrandingReachable | backend/pkg/activityconsumer/consumer.go:137-181 | a reachable state with all threads ended, no slot taken and an accepted message waiting |
| ConsumerWaiting.StrandedIff | backend/pkg/activityconsumer/consumer.go:150-223 | after any run an activity of which no task holds a slot has tasks waiting if and only if the last release of one of its slots was a rollback that left somebody waiting |
| ConsumerWaiting.StrandedAtRestIff | backend/pkg/activityconsumer/consumer.go:150-223 | at rest some accepted message of an activity is not completed in exactly that case |
| ConsumerBound.NoLivelock | backend/pkg/activityconsumer/consumer.go:70-223 | in every run, whatever is refused, handlers, workers and readers make at most 35 plus the limit steps per message and six per mailbox reading |
| ConsumerBound.OwnLowers | backend/pkg/activityconsumer/consumer.go:137-223 | every step of a handler, worker or reader, a rollback and a drain of others' messages included, lowers the measure behind that bound |
| Orders.Order.ApplyAction | backend/internal/order/domain/order.go:82-140 | the five methods together allow exactly: pay and cancel from CREATED, ship from PAID, complete from SHIPPED, refund from PAID or SHIPPED; otherwise the status stays |
| Orders.Order.BuildEvent | backend/internal/order/domain/event.go:19-38 | the event carries the new status, and user, products and SKUs (in item order) exactly for a paid cart order |
| Orders.PathFacts | backend/internal/order/domain/order.go:82-140 | an order changes at most three times, never returns to a status, and is never both paid and canceled |
| Orders.BatchCommitsIff | backend/internal/order/infra/repository/order.go:183-207 | the affected-row check lets a batch through exactly when its ids are distinct and all still CREATED |
| Orders.BatchCancel | backend/internal/order/usecase/batch_cancel_order.go:45-83 | exactly the orders read as CREATED are tried; if all of them still are, each becomes CANCELED with its row, in order, and otherwise nothing changes |
| Orders.SeenCreatedAre | backend/internal/order/usecase/batch_cancel_order.go:45-70 | exactly the ids read as CREATED are tried; one read as anything else is left out |
| Orders.SeenCreatedDistinct | backend/internal/order/usecase/batch_cancel_order.go:45-70 | distinct ids stay distinct, so that the batch does not fail by itself |
| Orders.ChangeStatus | backend/internal/order/usecase/change_orderStatus.go:54-95 | a change is reported exactly when the graph allows it from the status read and that status still holds; then the status and one new row are the target of the action, and otherwise nothing changes |
| Orders.OutboxIsHistory | backend/internal/order/usecase/change_orderStatus.go:62-95 | in every run, however stale the reads, an order's outbox rows are exactly its status changes in order, follow the graph, are at most three and never hold both PAID and CANCELED |
| Orders.CreateStarts | backend/internal/order/infra/repository/order.go:60-75 | a new order is CREATED without a row, and one that exists already stays as it is |
| Orders.FullLife | backend/internal/order/usecase/change_orderStatus.go:54-95 | an undisturbed order goes through all its statuses and tells of each |
| Timeouts.DispatchOrderTimeoutJob.ShouldCancel | backend/internal/order/job/dispatch_order_timeout.go:96-127 | an order is to be canceled exactly when it reads as CREATED and the payment service answers that it is not paid; one reported paid becomes PAID, with its row, unless others interfere; the job itself makes no other change |
| Timeouts.DispatchOrderTimeoutJob.DrainDue | backend/internal/order/infra/delay_queue/redis_zset.go:36-64 | a drain takes exactly the due entries; it fails exactly when it comes to the claim that fails, and then loses all that its earlier claims took |
| Timeouts.DrainLoses | backend/internal/order/infra/delay_queue/redis_zset.go:40-44 | a hundred due orders and an error at the second claim: none is in the queue and none was handed over |
| Timeouts.DispatchOrderTimeoutJob.Run | backend/internal/order/job/dispatch_order_timeout.go:51-93 | with anybody changing orders in between: after a good run no drained order that existed is still CREATED, after a bad one every drained order that is goes back into the queue; each transaction of the job marks PAID an order reported paid or cancels a batch of orders reported not paid, so none that is reported paid is canceled by it |
| Orders.CanceledNeverPaid | backend/internal/order/usecase/batch_cancel_order.go:45-83 | a canceled order was told canceled and never paid, however payments race |
| Outbox.BacklogZero | backend/internal/order/job/outbox_worker.go:41-67 | the sum of remaining retries is zero exactly when nothing is pending |
| Outbox.MarkSentBacklog | backend/internal/order/infra/repository/outbox.go:104-117 | marking a batch of pending rows sent lowers the sum by at least the batch's size |
| Outbox.OutboxWorkerJob.ProcessBatch | backend/internal/order/job/outbox_worker.go:69-135 | each row answers to its own send: taken by the broker it is delivered and, if the write works, SENT; refused it has one failed send more, and exactly the sixth gives it up; with working writes the sum falls by at least one a row |
| Outbox.OutboxWorkerJob.Run | backend/internal/order/job/outbox_worker.go:41-67 | despite the moving offset a run that finds pending rows strictly lowers the sum if every write works; with the broker up nothing but sending happens, at least half of the pending rows are SENT, and all of up to a hundred; with it down every pending row costs one send if none can be given up |
| Outbox.OutboxWorkerJob.RunTimes | backend/internal/payment/job/outbox_worker.go:38-59 | if every write works, as in the payment repository, as many runs as the sum clear any backlog, and with the broker up no row is ever given up; if giving up never takes effect, as in the order repository, exactly the rows that are never delivered stay pending |
| Outbox.RefusedRowStaysPending | backend/internal/order/infra/repository/outbox.go:119-130 | a row that the broker refuses is still pending after any number of runs and as many failed sends |
| Payments.ApplyClimbs | backend/internal/payment/domain/payment.go:20-40 | every status change raises the rank, a transaction id stays once set, applying a result again changes nothing |
| Payments.ConvergesIff | backend/internal/payment/domain/payment.go:61-78 | the final status is independent of order, and of repetition, if and only if no failure meets a refund (for a failed payment: no success meets a refund) |
| Payments.FailureMeetsRefund | backend/internal/payment/domain/payment.go:61-78 | a failure and a refund end refunded in one order and failed in the other |
| Payments.UpdatePaymentByTxn | backend/internal/payment/usecase/wechat_callback_uc.go:53-100 | each error happens exactly under its condition and changes nothing; otherwise the payment has the status that the provider's name for it leads to and the first transaction id named, and one row is added exactly if the status changed |
| Payments.OutboxIsHistory | backend/internal/payment/infra/repository/gorm.go:46-84 | in every run a payment's outbox rows are exactly its status changes, at most three and of rising rank; a paid one names its transaction and no two name different ones |
| Payments.PaidAndRefunded | backend/internal/payment/usecase/wechat_callback_uc.go:53-100 | a registered payment that succeeds and is refunded tells of both, with its transaction |
| PlaceOrderTheorems.StockConserved | backend/internal/checkout/usecase/place_order.go:124-164 | for any interleaving, stock plus what unrefunded commits hold is constant per product, and each such commit is accounted for |
| PlaceOrderTheorems.ErrorLeavesNothing | backend/internal/checkout/usecase/place_order.go:214-234 | a request that ends in an error with working compensations leaves no order, no stock taken and no coupon locked |
| PlaceOrderTheorems.LiveOrderHoldsAll | backend/internal/checkout/usecase/place_order.go:151-164 | a live order holds all its stock and every coupon it was placed with |
| PlaceOrderTheorems.PlacedTakes | backend/internal/checkout/usecase/place_order.go:124-164 | an undisturbed execution takes exactly what it needs from stock, locks exactly its coupons and leaves a live order |
| PlaceOrderTheorems.EndedGivesBack | backend/internal/coupon/infra/mq/consumer.go:105-131 | the end of an order gives its stock back and frees its coupons, used or not, and no others |
| PlaceOrderTheorems.PlacedThenEnded | backend/internal/inventory/infra/mq/order_consumer.go:94-140 | placed, perhaps paid, and ended: stock and coupons are exactly as before |
| PlaceOrderTheorems.OnlyLiveOrdersHold | backend/internal/inventory/infra/mq/order_consumer.go:94-140 | when all is quiet exactly the live orders hold stock, and without live orders the stock is the initial one, however often events repeat |
| PlaceOrder.RefundConserves | backend/internal/inventory/infra/repository/gorm.go:85-135 | giving a commit back, once or again, keeps stock plus held quantities constant |
| PlaceOrderTheorems.StockNeverNegative | backend/internal/inventory/infra/repository/gorm.go:44-83 | stock never goes below zero while no request asks for a negative quantity |
| PlaceOrderTheorems.RepeatedIdTakesStockBack | backend/internal/inventory/transport/grpc/handler.go:101-109 | a second request with a live order's id and a product in common with it is told success without taking stock, and its failure leaves the live order holding none |
| PlaceOrderUseCases.PlaceOrderUseCase.Execute | backend/internal/checkout/usecase/place_order.go:124-190 | as a sequence of calls with anything of others in between it is a run of the saga; it succeeds exactly when stock and coupons were there at its own commit and reservation, whose places in the sequence are given, and every call worked; then there is a live order that holds its stock with its coupons locked, and a failed prepay fails nothing |
| Coupons.NormalizeCouponIds | backend/internal/coupon/usecase/reserve_coupon.go:98-112 | refuses any id that is not positive, else drops repetitions |
| Coupons.FirstOccurrencesFacts | backend/internal/coupon/usecase/reserve_coupon.go:98-112 | the normalized ids are distinct and are the same set |
| Coupons.OrderKept | backend/internal/coupon/usecase/reserve_coupon.go:98-112 | ids keep the order of their first occurrence |
| Coupons.BatchReserve | backend/internal/coupon/infra/repository/coupon_repo.go:133-153 | counting affected rows locks all coupons exactly when every one is still unused, else none |
| Coupons.Execute | backend/internal/coupon/usecase/reserve_coupon.go:35-96 | success exactly when every coupon was available and still is unused; then all are locked for the order, otherwise nothing changes; it is rejected exactly for bad ids, a failing read, or a failing update of coupons that all read as available, and else names exactly the ids that were not available, or all of them as changed meanwhile |
| Coupons.UnavailableAre | backend/internal/coupon/usecase/reserve_coupon.go:49-72 | an id is named as not available exactly if it was asked for and is not, and once |
| Adapters.AllocateDiscount | backend/internal/checkout/usecase/adapters.go:180-208 | the loop keeps each product's last share and gives a positive remainder to the first available line with the largest subtotal; with no discount or no total it returns nothing |
| Adapters.DiscountAccount | backend/internal/checkout/usecase/adapters.go:190-205 | shared amounts plus overwritten shares are the discount, and the remainder is below the number of lines |
| Adapters.DiscountExactIff | backend/internal/checkout/usecase/adapters.go:180-208 | the amounts add up to the discount if and only if it is zero, or the total is positive and no two available lines have one product with the earlier one's discount times subtotal reaching the total |
| Adapters.TwoSkusLoseAShare | backend/internal/checkout/usecase/adapters.go:194-196 | two SKUs of one product at 50 each share a discount of 10 as 5 |
| Adapters.DistinctProductsExact | backend/internal/checkout/usecase/adapters.go:180-208 | when no two available lines have one product the amounts sum to the discount and each line gets its share, the first largest the remainder as well |
| Adapters.ToInventoryStockItems | backend/internal/checkout/usecase/adapters.go:210-225 | one entry for each product that occurs, with the sum over its SKUs reduced to 32 bits, which is the sum exactly when that fits |
| Adapters.OrderedAdds | backend/internal/checkout/usecase/adapters.go:210-225 | what is ordered of a product adds up over any parts of the order, down to single items |
| Adapters.WrapIs | backend/internal/checkout/usecase/adapters.go:210-225 | reduced to 32 bits: in the range of an int32 and different by a multiple of 2^32 |
| Adapters.QuotMirrors | backend/internal/checkout/usecase/adapters.go:190-192 | division truncates: a negative product has the negated share |
| OrderIds.Generator.GenerateOrderId | backend/internal/checkout/ioc/snowflake.go:20-37 | the call with its wait loop ends and stamps the id with the reading that ended it, without storing that millisecond |
| OrderIds.Generator.GenerateMany | backend/internal/checkout/ioc/snowflake.go:20-37 | the calls made on a fresh generator form a run, and their ids are the ids of that run |
| OrderIds.IncreasingIff | backend/internal/checkout/ioc/snowflake.go:20-37 | ids of one generator are strictly increasing, and even just distinct, if and only if no call reads the millisecond an overflowing call just waited for; they always fit a non-negative int64 |
| OrderIds.SameIdTwice | backend/internal/checkout/ioc/snowflake.go:24-31 | after 4096 calls in one millisecond, a call that waits for the next and one that reads it get the same id |
| OrderIds.FewCallsIncreasing | backend/internal/checkout/ioc/snowflake.go:20-37 | at most 4096 calls in each millisecond are enough |
| OrderIds.NodesNeverCollide | backend/internal/checkout/ioc/snowflake.go:36 | generators whose node ids differ modulo 1024 never produce the same id |
| OrderIds.IdFields | backend/internal/checkout/ioc/snowflake.go:36 | 41 bits of milliseconds, 10 bits of node and 12 bits of sequence can be read back from every id |
| Money.PrintedIsExact | backend/internal/payment/usecase/alipay_page_pay_uc.go:144-151 | the printed text denotes the amount exactly, whatever its sign |
| Money.RoundTrip | backend/internal/payment/usecase/alipay_notify_uc.go:104-114 | a non-negative amount comes back from its text for any error below one half |
| Money.RoundTripIff | backend/internal/payment/usecase/alipay_notify_uc.go:104-114 | with exact arithmetic exactly the non-negative amounts come back (the pay path refuses others before printing) |
| Money.PrintsDiffer | backend/internal/payment/usecase/alipay_page_pay_uc.go:144-151 | different amounts have different texts |
| Money.PrintsAs | backend/internal/payment/usecase/alipay_page_pay_uc.go:144-151 | 1234.06 and -0.05 written out |
| Money.UnsignedIff | backend/internal/payment/usecase/alipay_notify_uc.go:104-114 | exactly the texts of digits with at most one dot, and at least one digit, are read as numbers |
| Money.AcceptsIff | backend/internal/payment/usecase/alipay_notify_uc.go:66-72 | the check accepts a notified text for a positive stored amount exactly when it parses to a number within half a cent of it, the lower end included |
| Money.AcceptsOwnTextIff | backend/internal/payment/usecase/alipay_notify_uc.go:66-72 | for any error below one half a text that the mall prints is accepted if and only if it is that of the stored amount |
| Money.AcceptsTenthsOfCents | backend/internal/payment/usecase/alipay_notify_uc.go:104-114 | 10.004 is accepted for 1000 cents |
| PriceCache.StepSafe | backend/internal/product/repo/product.go:243-262 | every timely step keeps: what is old, in the cache or on its way into it, will still be deleted |
| PriceCacheSafety.CacheAgrees | backend/internal/product/repo/product.go:397-482 | in every timely run, when no fill or delete is on its way the entry of a live SKU is absent or equal to the row |
| PriceCache.StaleIsCovered | backend/internal/product/repo/product.go:472-482 | at any time a stale entry has the delayed delete of a newer update still to come |
| PriceCache.SlowFillStaysStale | backend/internal/product/repo/product.go:422-435 | a fill slower than the delay leaves a stale entry with nothing left to delete it |
| PriceCacheTiming.OwnStep | backend/internal/product/repo/product.go:454-464 | a step keeps the entry and all fills of a product's own row at the row's version if and only if it is no update of the product or of one of its SKUs that comes while a price of the row is cached or on its way |
| PriceCacheSafety.OwnRowStaysStale | backend/internal/product/repo/product.go:454-464 | for every product a run that creates it, fills its own row's price and updates it ends quiet with the old price of its own row in the cache |
| PriceCacheSafety.GuardedIff | backend/internal/product/repo/product.go:243-262 | from any state every careful future keeps an entry in agreement if and only if, for a SKU, whatever is old will still be deleted and, for an own row, nothing is old |
| PriceCacheTiming.CarefulStep | backend/internal/product/repo/product.go:454-482 | a step keeps that guard if and only if it is neither a delayed delete that takes the last cover from an older fill nor, for an own row, an update while its price is cached or on its way |
| PriceCacheSafety.SafeIff | backend/internal/product/repo/product.go:454-482 | for SKUs and own rows, a run is safe from stale entries all along if and only if every step in it is careful |
| PriceCache.CacheAsideProductRepo.UpdateProduct | backend/internal/product/repo/product.go:243-262 | with anything of others between its accesses, an update that works has deleted the SKU's entry and has its delayed delete to come; one that fails at the SKU has deleted nothing |
| PriceCache.UpdateWrites | backend/internal/product/repo/product.go:243-262 | an undisturbed update gives the SKU and the own row prices newer than any before, changes no other row, and of the cache drops the entry of the SKU only |
| PriceCache.RemovalsRemove | backend/internal/product/repo/product.go:264-275 | a deleted product loses all its rows and no cached price |
| PriceCache.CacheAsideProductRepo.GetPrice | backend/internal/product/repo/product.go:110-126 | a price from the cache or from another caller's load in flight is the row's unless a newer update's delayed delete is still to come; one read by the call is the row's at that moment, and is what the cache has afterwards if the write works |
| KeyedPool.KeyedConsumerPool.Submit | backend/pkg/pool/keyed_consumer_pool.go:77-136 | nil exactly when the task was accepted; every other answer happens under its condition and leaves neither permit nor wait group behind |
| KeyedPool.PermitsAreHolders | backend/pkg/pool/keyed_consumer_pool.go:85-135 | in every run the permits of a key are exactly its unreleased submissions, and at most the limit that is set, or eight if none is |
| KeyedPool.DrainOnClose | backend/pkg/pool/keyed_consumer_pool.go:155-181 | after CloseWithTimeout answered true every accepted body has ended, and none starts, runs or is accepted in any continuation |
| KeyedPool.ClosedForGood | backend/pkg/pool/keyed_consumer_pool.go:77-90 | however the pool was closed, whoever submits afterwards is turned away |
| KeyedPool.TrueExactlyWhenDrained | backend/pkg/pool/keyed_consumer_pool.go:155-181 | a waiting close can answer true exactly when nothing is pending any more |
| KeyedPool.KeyedConsumerPool.CloseWithTimeout | backend/pkg/pool/keyed_consumer_pool.go:155-181 | it closes the pool; true means drained, false only at a timeout, and without a timeout the answer is true exactly when the pool is drained, and none before |

## Left out

- Consumers.Consumer: has one map of states; which shard a state belongs to only selects a lock, and the locks are the subject of `ConsumerSystem`.
- ConsumerSystem: contexts, payloads, error and panic hooks and the collector's start and stop are not part of the steps; a task is its activity and a number. The collector's counter update is made after the state lock is dropped but under the shard lock.
- ConsumerProgress.DeadlockFree: says that some thread can step; that the scheduler is fair is not part of the model.
- ConsumerBound.NoLivelock: counts the steps of handlers, workers and readers, not those of collectors.
- Orders.OutboxIsHistory: rows are those of committed transactions; the direct sends after a commit and their MarkSent, which in the order repository names no table either (`backend/internal/order/infra/repository/outbox.go:91-102`), are not modelled. A row sent directly is so sent again by the worker.
- Outbox.OutboxWorkerJob.Run: one worker at a time, no rows arriving during a run, and payloads that parse (the payment repository drops rows that do not, which can end a run early).
- Timeouts.DispatchOrderTimeoutJob.Run: members of the delay queue are order ids; malformed members, which the source skips, are not modelled, nor is the order of equal due times.
- Payments.UpdatePaymentByTxn: trims no text and takes the trade number as parsed.
- PlaceOrderTheorems.StockConserved: a failed commit or create call is taken to have had no effect, and a coupon reservation that fails took effect before it failed or never. Stock adjustments by operators are not steps. Order ids are taken not to repeat (a request begins with one that no request had); of a repeated id only what `PlaceOrderTheorems.RepeatedIdTakesStockBack` says is modelled.
- PlaceOrderUseCases.PlaceOrderUseCase.Execute: starts where the order id is drawn; validation, quotes and prices before it change nothing.
- Coupons.BatchReserve: like the source's update, it checks neither owner nor validity again.
- Adapters.AllocateDiscount: mathematical integers, so no 64-bit overflow of discount times subtotal.
- Money.RoundTrip: floats are exact reals plus a bounded error; exponents and other float syntax are not parsed.
- OrderIds.Generator: the mutex makes a call atomic; the clock never steps back.
- PriceCacheSafety.CacheAgrees: claims nothing for the basic-detail and list caches, or rows that are deleted; cache deletes are taken to succeed, and a product that is created has an id that was never in use.
- calculateCouponDiscount, order lines from quotes, and price totals: single case analyses over one value.
- Seckill flow, HTTP and RPC handlers, message-queue client loops, search and agents: either plumbing or decided outside the modelled files.
