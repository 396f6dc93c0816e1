# Billing service: a verified model

This project models the billing service of a parking application and proves how it
behaves over whole runs. The chain it covers is: a reservation event is delivered,
possibly many times and in any order; the consumer turns it into a use case; the use
case runs a database transaction that writes an invoice, its lines and an outbox row;
one worker publishes outbox rows to the broker; and gateway notifications drive payment
requests through the same pattern.

`dafny verify dfyconfig.toml` checks everything.

## How the files fit together

- `pricing.dfy`: the five pricing rules, the engine that folds them, and the decision
  table the fold is proved equal to.
- `tariff.dfy`: the same prices in plain numbers, without the engine's constants and
  helpers.
- `accounts.dfy`: one invoice on its own, with the invariant that ties its total, its
  lines and its outbox rows together.
- `ledger.dfy`: the invoice, line and outbox tables; each transaction is proved to act on
  one account and leave the others alone.
- `identifiers.dfy`: the texts the reservation_id column accepts.
- `billing.dfy`: the use cases and the reservation consumer as functions of the tables.
- `events.dfy`: what each event does, on its own fields: the reply for every fault and the
  whole invoice afterwards.
- `repository.dfy`, `usecase.dfy`, `worker.dfy`: the same operations in place, as classes
  with the loops of the program, proved against those functions.
- `interleaving.dfy`: every interleaving of opens, closes and handlers, where a fee
  handler's status read and its append are separate steps.
- `delivery.dfy`, `acknowledgement.dfy`, `projection.dfy`: serial runs of deliveries and
  gRPC calls; duplicates, retries, acknowledgements, independence of reservations.
- `quotes.dfy`: the ledger against the pricing engine.
- `publisher.dfy`, `chain.dfy`, `reconciliation.dfy`: the outbox publisher, its
  composition with invoice and payment transactions that commit out of id order, and what
  reaches a reader of the broker.
- `payments.dfy`: payment-request status.

## Modelling choices

- Instants are integer nanoseconds, durations saturate at 64 bits, an unset time is the
  zero timestamp, and the time zone is the fixed UTC+7 offset. `time.Now()` is the `now`
  argument of a step. Amounts are unbounded integers; `InterleavingSafety` shows that
  they fit 64 bits whenever the largest possible invoice does. Tariffs are non-negative.
- An invoice id is its position in the table and stands for the fresh uuid. Reservation
  ids are canonical uuid text; the reservation_id column rejects any other text.
- A fault argument says where the infrastructure fails: nowhere, before anything is
  committed, or in the read that follows the commit.
- In the interleaved system each transaction is atomic; the read of a handler and its
  transaction are not. In `chain.dfy` drawing an outbox id and committing are separate.
- A worker tick is a fetch followed by a publish-and-mark step; rows may become visible
  in between. There is one worker, as `main.go` starts one.
- A payment reference is unique. In `payments.dfy` a notification's lookup and its update
  are one step; what the lookup reads never changes. In `chain.dfy` they are two.

Where the prose of the repository and its code disagree, the code is modelled. Cancelling
and missing a reservation add a fee and leave the invoice OPEN, although the README says
they close it (README.md:125). A cancelled reservation keeps its booking fee in the
ledger, although the engine's quote for it has none. "Invoice immutable after CLOSED"
(README.md:59) holds in serial runs and fails in interleaved ones; the exact condition is
`ClosedCanChangeIff`. Publication in id order holds while rows commit in id order and
fails otherwise; the exact condition is `InIdOrderIff`. A redelivered fee event is refused, not acknowledged, while the
invoice is open. Payment status has no terminal state.

## Model

| member | source | states |
|---|---|---|
| Pricing.QuoteIsDecisionTable | pkg/pricing/engine.go:28-51 | for every session and tariff, folding the five rules in order gives exactly the decision table: one cancellation line; or no-show then booking; or booking with the parking charge of the local calendar day |
| Pricing.Engine.Apply | pkg/pricing/engine.go:41-51 | the rule loop computes the fold of its rules, and the decision table for the default rules |
| Pricing.Engine.Default | pkg/pricing/engine.go:28-39 | the default engine holds the given tariffs and the five rules in their order |
| Pricing.SearchKind | pkg/pricing/engine.go:55-62 | the search loop answers yes exactly when a line of the kind exists |
| Pricing.QuoteKindsNeverRepeat | pkg/pricing/rules.go:15-104 | no kind is quoted twice and at most one quoted line is not the booking fee |
| Pricing.OvernightIffLaterDay | pkg/pricing/rules.go:70-77 | the comparison with the next local midnight holds exactly when check-out falls on a later local day than check-in |
| Pricing.SameDayAtMost24Hours | pkg/pricing/rules.go:84-98 | a session that is not overnight lasts less than a day and is charged 1 to 24 hours |
| Pricing.ChargedHoursBracket | pkg/pricing/rules.go:91-98 | the hours charged are the least number of hours that cover the duration, and at least one |
| Pricing.ParkingIsBounded | pkg/pricing/rules.go:63-104 | a session has at most one parking line, between zero and the larger of the overnight flat and 24 hourly rates |
| Pricing.BillGrowsUntilMidnightThenIsFlat | pkg/pricing/rules.go:63-104 | the bill never falls as check-out moves later before midnight, is constant from midnight on, and drops across midnight exactly when the hours so far cost more than the flat |
| Pricing.SplittingAddsAtMostOneHour | pkg/pricing/rules.go:84-104 | splitting a same-day stay never makes parking cheaper and adds at most one hour's charge |
| Tariff.QuoteInPlainNumbers | pkg/pricing/rules.go:15-104 | for every session and tariff, in nanoseconds and UTC clock times: a cancellation is free exactly up to confirmation plus grace (or if the window is the longest duration), parking is the flat exactly if a local midnight lies after check-in and not after check-out, else the started hours of 3 600 000 000 000 ns, and nothing if a time is unset or check-out is not later |
| Tariff.NextMidnightIsFirst | pkg/pricing/rules.go:70-77 | the instant compared with is the first instant after check-in that is 17:00 UTC, at most 86 400 000 000 000 ns away |
| Tariff.ChargeIsUnique | pkg/pricing/rules.go:63-104 | a stay has exactly one parking charge |
| Tariff.FullDayIs24Hours | pkg/pricing/rules.go:91-101 | the stay from a local midnight to one nanosecond before the next costs 24 hours, one nanosecond costs one hour, and the next midnight costs the flat |
| Accounts.ClosingInsertsOneLine | internal/billing/usecase/close_invoice.go:11-41 | quote, filter and batch insert together add at most one line, the session's charge, or fail on the one-off index; the total grows by what the event announces |
| Accounts.CloseSessionOk | internal/billing/repository/postgres/invoice.go:160-206 | closing any session keeps the invoice invariant: total equal to the sum of lines and to the announced amounts, one booking line, at most one of each fee and one parking line, closed_at set exactly when CLOSED |
| Accounts.AddFeeOk | internal/billing/repository/postgres/invoice.go:208-233 | appending a fee keeps the same invariant, whatever the status |
| Accounts.OpenAccountOk | internal/billing/repository/postgres/invoice.go:66-74 | a new invoice satisfies the invariant |
| Accounts.MoneyBound | data/migrations/001_init.up.sql:35-37 | an invoice in the invariant totals between the booking fee and booking + cancellation + no-show + the largest parking charge |
| Events.LargestBillIsReached | pkg/pricing/rules.go:63-104 | the bound is exact: unless the grace window is endless, a created, a late cancelled, an expired and a checked-out event take an invoice to it |
| Ledger.OpenActsOnFreshAccount | internal/billing/repository/postgres/invoice.go:43-77 | open writes exactly when reservation and key are both free and the id is accepted; it then adds one account with its booking line and opened row, keeps foreign keys and unique columns, and touches no other invoice |
| Ledger.CloseActsOnOneAccount | internal/billing/repository/postgres/invoice.go:160-206 | close on the tables is close on one account; a unique violation, an unknown id or an early failure changes nothing; no other invoice changes |
| Ledger.AppendActsOnOneAccount | internal/billing/repository/postgres/invoice.go:208-247 | appending a line on the tables is appending on one account, refused by the one-off index without a trace |
| Ledger.ReservationFindsInvoice | internal/billing/repository/postgres/invoice.go:79-135 | under the unique columns, looking up an invoice by its own reservation or key finds that invoice |
| Repository.InvoiceRepository.Open | internal/billing/repository/postgres/invoice.go:43-91 | tables and reply after the in-place open are those of the open transaction, replay and fault paths included; a returned invoice carries the requested key; unique columns and foreign keys are kept and no existing invoice changes |
| Repository.InvoiceRepository.Close | internal/billing/repository/postgres/invoice.go:160-206 | the loop that skips booking lines, inserts the rest and accumulates the new total leaves the tables of the close transaction, rolled back on a violation; success means the invoice is no longer open, and no other invoice changes |
| Repository.InvoiceRepository.AppendLine | internal/billing/repository/postgres/invoice.go:208-233 | tables and reply are those of the append transaction; success means the account gained exactly that line, amount and row, and no other invoice changes |
| Repository.InvoiceRepository.GetByReservation | internal/billing/repository/postgres/invoice.go:123-135 | the lookup returns an invoice of that reservation, or says there is none, or rejects the id |
| Usecase.BillingUsecase.OpenInvoice | internal/billing/usecase/open_invoice.go:12-27 | blank ids are refused without writing; otherwise the open transaction runs with the booking fee; a returned invoice carries the key; every invoice keeps its invariant and its written rows |
| Usecase.BillingUsecase.CloseInvoice | internal/billing/usecase/close_invoice.go:11-41 | the filter loop and the close leave the tables the close use case specifies; success means closed; every invoice keeps its invariant and its written rows |
| Usecase.BillingUsecase.ApplyCancelFee | internal/billing/usecase/event_handlers.go:54-74 | the loop over the engine's lines appends the post-grace fee once, or nothing; every invoice keeps its invariant and its written rows |
| Usecase.BillingUsecase.ApplyNoShowFee | internal/billing/usecase/event_handlers.go:77-84 | appends the no-show fee to an open invoice and nothing otherwise; every invoice keeps its invariant and its written rows |
| Usecase.ReservationConsumer.Handle | internal/billing/consumer/reservation.go:54-118 | dispatch leaves the tables and gives the reply that the specification assigns to each event, malformed ones included; every invoice keeps its invariant and its written rows |
| Events.CheckoutCharges | internal/billing/consumer/reservation.go:96-115 | on the event's own fields: an open invoice gains exactly the parking charge of its two times as a line and on the total, closed_at is the handling time, the quote is announced, the reply is an acknowledgement exactly if nothing fails, and no other invoice changes; an invoice that is not open stays as it is |
| Events.CancelledCharges | internal/billing/consumer/reservation.go:75-87 | on the event's own fields: nothing happens and it is acknowledged if the time, or the handling time if unset, is within confirmation plus grace or the tariff is zero; otherwise an open invoice without that line gains the fee, with it the event is refused, and a closed one is left alone |
| Events.ExpiredCharges | internal/billing/consumer/reservation.go:89-94 | an open invoice without a no-show line gains the no-show fee, with one the event is refused, and a closed one is left alone and acknowledged |
| Events.CreatedOpensInvoice | internal/billing/consumer/reservation.go:56-73 | the first created event adds one open invoice with that reservation, driver and key, the booking fee as total, line and announcement, and changes no other |
| Events.CreatedAgainWritesNothing | internal/billing/consumer/reservation.go:68-73 | a created event whose reservation or key is taken writes nothing and is acknowledged exactly if the key is there and nothing fails |
| Events.DroppedEvents | internal/billing/consumer/reservation.go:56-117 | unreadable and unrouted messages and created events without an id are acknowledged and change nothing, whatever fails |
| Events.EarlyFailureIsRefused | pkg/rabbit/subscriber.go:72-78 | every other event whose handling fails before its commit is refused and changes nothing |
| Events.EventsWithoutInvoice | internal/billing/usecase/event_handlers.go:15-30 | without an invoice a fee event is acknowledged, or refused if the id is not a uuid, and a check-out is refused |
| Events.BadIdIsRefused | data/migrations/001_init.up.sql:13-16 | a created event whose id is not a uuid is refused and changes nothing |
| Events.OpenOutcomes | internal/billing/usecase/open_invoice.go:12-27 | every outcome of an open: validation for ids that trim to nothing, failure, replay by key, not-found for a taken reservation, or the new invoice row |
| Events.CloseOutcomes | internal/billing/repository/postgres/invoice.go:160-182 | a close that fails early, names no invoice or finds it not open changes nothing, with its outcome |
| Billing.BlankIffTrimmedAway | internal/billing/usecase/open_invoice.go:13-18 | an id counts as blank exactly when trimming leaves nothing |
| Billing.SpacesAreUnicode | internal/billing/usecase/open_invoice.go:13-18 | white space is exactly the 25 White_Space characters of Unicode |
| Identifiers.TextsAreValidAndDistinct | data/migrations/001_init.up.sql:13-16 | the canonical text of every 128-bit value is accepted and different values have different texts |
| Identifiers.ValidIsText | data/migrations/001_init.up.sql:13-16 | every accepted text is the canonical text of a 128-bit value |
| Usecase.Subscriber.TakeTurn | pkg/rabbit/subscriber.go:61-84 | one delivery: the ledger takes the delivered message's step, and the message leaves the queue exactly if the handler acknowledges it and the acknowledgement arrives; otherwise it is queued again |
| Usecase.Subscriber.Consume | pkg/rabbit/subscriber.go:56-85 | on any ledger that earlier deliveries left, whatever is delivered, lost or refused: a queued message is delivered each turn until none is left, queue and acknowledged messages together are the original messages, the ledger is that of the delivered trace, and every acknowledged created, checked-out, cancelled or expired event has its lasting effect |
| Usecase.AnsweredIsHonoured | pkg/rabbit/subscriber.go:61-84 | in a consumer-only trace every acknowledged created event's reservation has an invoice at the end, every acknowledged check-out's invoice is closed, and every invoice that was open when a charged fee event was acknowledged carries its line |
| Interleaving.NextSound | internal/billing/usecase/event_handlers.go:18-49 | every step of every interleaving keeps the table constraints, every invoice's invariant and the waiting handlers' fees, and only adds to what is written |
| Interleaving.InterleavingSafety | internal/billing/repository/postgres/invoice.go:184-223 | in every reachable state of every interleaving the stored total is the sum of the lines and of the announced amounts, lies within the cap, fits 64 bits if the cap does, the line shape and closed_at rules hold, and an invoice is closed exactly when its close is announced |
| Interleaving.AppendOnly | docs/architecture/erd.md:34-40 | from any point of any run to any later one, lines, outbox rows and invoices are only added and closed stays closed |
| Interleaving.LateLinesWereReadOpen | internal/billing/usecase/event_handlers.go:18-84 | what happens to an invoice after it was closed is exactly a stretch of cancellation and no-show fees, at most one of each: their lines, their sum on the total, one outbox row each and nothing else; behind each fee stands a step of its own that read this invoice, by its reservation, as OPEN before, of the same kind and with the amount that read fixed |
| Interleaving.ClosedCanChangeIff | internal/billing/repository/postgres/invoice.go:208-233 | a closed invoice can still change in some continuation exactly when a waiting fee handler holds a kind it lacks |
| Interleaving.FrozenWithoutWaitingFees | internal/billing/usecase/event_handlers.go:15-30 | a closed invoice on which no fee handler waits never changes in any interleaving |
| Interleaving.LateFeeAfterClose | README.md:59 | a reachable interleaving in which a closed invoice gains a no-show line and its total grows by the no-show tariff, for every stay |
| Interleaving.OutboxConservation | internal/billing/repository/postgres/invoice.go:66-74 | when closing sessions carry no cancellation or no-show, every reachable invoice has one opened row and exactly one closed row per fee line and for its close |
| Delivery.RunIsInterleaving | internal/billing/consumer/reservation.go:54-118 | every serial run of deliveries and gRPC calls is an interleaving that ends with no handler waiting |
| Delivery.ClosedIsFrozen | internal/billing/repository/postgres/invoice.go:178-182 | in every serial run a closed invoice never changes again in any respect |
| Delivery.DuplicateDelivery | internal/billing/consumer/reservation.go:54-118 | deleting from any run every step that failed before its commit and every redelivery of an event whose earlier handling committed while its invoice existed, even if that handling then failed and was refused, leaves all tables identical |
| Delivery.HandledIsSettled | internal/billing/usecase/event_handlers.go:51-84 | an event handled as far as its commit while its invoice exists is settled, whether or not the read after the commit fails |
| Delivery.SettledLasts | data/migrations/001_init.up.sql:35-37 | a settled event stays settled however the ledger grows |
| Delivery.CheckoutCloses | internal/billing/consumer/reservation.go:96-115 | a check-out that finds its invoice and commits leaves it closed; it never meets a unique violation |
| Acknowledgement.SettledIff | internal/billing/consumer/reservation.go:54-118 | an event is settled exactly when handling it changes nothing now and after every possible continuation |
| Acknowledgement.EarlyCancelIsNotSettled | internal/billing/usecase/event_handlers.go:15-30 | a cancellation acknowledged before the invoice exists still charges when redelivered after it does |
| Acknowledgement.UnstampedCancelIsNotIdempotent | internal/billing/consumer/reservation.go:83-87 | without a cancellation time the same event is free within grace and charged when redelivered later |
| Acknowledgement.RedeliveredFeeIsRefusedUntilClosed | data/migrations/001_init.up.sql:34-37 | a fee event that landed is refused on every redelivery while the invoice is open and acknowledged once it is closed, in every continuation |
| Acknowledgement.RetriesHaveOneEffect | pkg/rabbit/subscriber.go:61-84 | any number of attempts at a stamped event, each at its own time and failing before its commit, after it or not at all, leave the ledger of one healthy attempt at the time of the first commit, or the ledger as it was if none committed |
| Acknowledgement.SecondHandlingChangesIff | internal/billing/consumer/reservation.go:54-118 | at any ledger a second handling, at any time and with any fault, changes something exactly when the event is a cancellation that was free the first time and costs something now, on an open invoice without that line; a stamped event never does |
| Acknowledgement.AckedCreatedLasts | internal/billing/consumer/reservation.go:56-73 | in a consumer-only run an acknowledged created event's reservation has an invoice ever after |
| Acknowledgement.AckedCheckoutLasts | internal/billing/consumer/reservation.go:96-115 | in any serial run an acknowledged check-out's invoice is closed ever after |
| Acknowledgement.AckedFeeMeans | internal/billing/usecase/event_handlers.go:18-84 | an acknowledged cancelled or expired event, whatever fails, did not fail early and found no invoice, was free, found the invoice closed, or left its line at its tariff |
| Acknowledgement.AckedFeeLasts | internal/billing/usecase/event_handlers.go:54-84 | in any serial run, once a charged fee event is acknowledged while its invoice is open, the invoice carries its line ever after |
| Acknowledgement.AckedCreatedHasInvoiceIff | internal/billing/consumer/reservation.go:70-73 | with gRPC opens in play, acknowledging a created event implies an invoice exactly when no other reservation's invoice holds that id as its key |
| Acknowledgement.AckedCreatedWithoutInvoice | internal/billing/handler/grpc/handlers.go:16-23 | such a key collision is reachable and loses the second reservation's invoice |
| Acknowledgement.ConsumerKeepsKeys | internal/billing/consumer/reservation.go:70-73 | in consumer-only runs every invoice's key is its reservation id |
| Acknowledgement.OpenReplaysForever | internal/billing/repository/postgres/invoice.go:56-91 | after an open with a key succeeded, every later open with that key, in every interleaving, returns the same invoice and writes nothing |
| Acknowledgement.NewKeyForTakenReservation | internal/billing/repository/postgres/invoice.go:56-91 | a new key for a taken reservation writes nothing and is answered not-found |
| Projection.HandleActsOnView | internal/billing/consumer/reservation.go:54-118 | one event acts on its own reservation's account as a table-free step function says, and on no other account |
| Projection.NonInterference | internal/billing/consumer/reservation.go:54-118 | in a consumer-only run a reservation's account is what its own deliveries alone would have made it |
| Projection.HandleRespectsOrder | internal/billing/consumer/reservation.go:54-118 | a message takes accounts that agree up to the order of lines and rows to accounts that agree up to it |
| Projection.CancelAndExpiryCommute | internal/billing/usecase/event_handlers.go:54-84 | a cancelled and an expired event of one reservation, delivered in either order at any point of a consumer-only run, give the same account up to the order of lines and rows, then and after any further deliveries |
| Quotes.CloseCharges | internal/billing/usecase/close_invoice.go:11-41 | a close leaves the invoice at the engine's total plus the fees it carried, with the booking fee on top for a cancelled session, or conflicts and changes nothing |
| Quotes.OpenThenCloseAgreesIff | internal/billing/repository/postgres/invoice.go:184-195 | open then close comes to the engine's total exactly when the session was not cancelled or booking is free |
| Quotes.OpenThenNoShowAgrees | internal/billing/usecase/event_handlers.go:77-84 | open then no-show gives the engine's no-show lines and total although the handler bypasses the engine, and the invoice stays open |
| Worker.OutboxStore.FetchUnpublished | internal/billing/repository/postgres/outbox.go:17-43 | the batch is the given number of unpublished rows of smallest id, ascending, whatever order the rows became visible in |
| Worker.OutboxStore.Insert | data/migrations/001_init.up.sql:39-47 | a row becomes visible after the others, unpublished, unless the primary key refuses its id |
| Worker.OutboxStore.MarkPublished | internal/billing/repository/postgres/outbox.go:26-51 | exactly the listed visible rows become published, nothing else changes |
| Worker.OutboxPublisher.Tick | internal/billing/worker/outbox.go:40-67 | a tick with a failing fetch, publish or mark takes the publisher through the corresponding fetch and drain steps |
| Worker.OutboxPublisher.Run | internal/billing/worker/outbox.go:22-38 | the ticker loop, with rows arriving and ticks failing in any way, ends in the state of the corresponding publisher run; marked rows were published; each tick in which nothing fails takes 200 rows off the backlog, or all of them |
| Publisher.PublisherRefinesOutbox | internal/billing/worker/outbox.go:40-67 | over every sequence of commits in id order, ticks and failures, the broker log without repeats is an initial stretch of the outbox, the marked rows an initial stretch of that, and nothing is marked unpublished |
| Publisher.HealthyTicksCatchUp | internal/billing/worker/outbox.go:40-67 | with rows committed in id order, n healthy ticks catch up with up to n batches of unmarked rows: the log without repeats is then the outbox and every row is marked |
| Publisher.HealthyTicksDrain | internal/billing/worker/outbox.go:22-67 | n healthy ticks publish and mark a backlog of up to n batches, however many rows there ever were and in whatever order they became visible |
| Publisher.OvertakesIff | internal/billing/worker/outbox.go:40-67 | with rows committed in any order, a row is in the log with no smaller row a ahead of it exactly when some drain first publishes it from a batch fetched before a was visible |
| Publisher.InIdOrderIff | internal/billing/repository/postgres/outbox.go:17-24 | the log without repeats is the smallest visible ids in ascending order exactly when no drain first publishes a row from a batch fetched before a smaller row, visible by now, was visible |
| Publisher.NextPrecedes | internal/billing/repository/postgres/outbox.go:17-24 | a smaller row visible when a larger one became visible keeps reaching the broker first, whatever other rows and failures do |
| Publisher.LateCommitIsPublishedLate | internal/billing/worker/outbox.go:51-62 | a run in which a row committed late is published behind a larger one |
| Chain.OpenedReachesBrokerFirst | internal/billing/worker/outbox.go:51-62 | in every run of invoice and payment transactions committing out of id order, rollbacks, ticks and failures, every closed event in the log is preceded by its invoice's opened event |
| Chain.OpenedPrecedesPayment | internal/billing/usecase/create_payment_request.go:63-90 | in every such run every payment event in the log is preceded by the opened event of the invoice it pays |
| Chain.RunLawful | internal/billing/repository/postgres/invoice.go:43-233 | in every such run every invoice satisfies the invoice invariant |
| Chain.DeskIsPaymentRun | internal/billing/repository/postgres/payment_request.go:113-149 | the payment requests of every such run are those of a run of creations and notifications, so the payment theorems hold of them |
| Chain.InterleavingIsRun | internal/billing/repository/postgres/invoice.go:43-233 | whatever ledger an interleaving of handlers reaches, such a run reaches too |
| Chain.PaymentIsRun | internal/billing/repository/postgres/payment_request.go:113-149 | a request for an invoiced reservation and a notification of a request take their effect as events of such a run |
| Chain.PayAddsOneRow | internal/billing/repository/postgres/payment_request.go:120-149 | a payment transaction that changes anything writes one outbox row, with its request's details, and changes no request's details |
| Chain.EffectAddsOneRow | internal/billing/repository/postgres/invoice.go:199-228 | each transaction writes at most one outbox row, for the invoice it works on |
| Reconciliation.DrainedLogTellsEveryTotal | internal/billing/worker/outbox.go:25-67 | once every visible row was published, the log without repeats, payment rows included, adds up to every invoice's stored total |
| Reconciliation.AckedCheckoutReachesBroker | internal/billing/consumer/reservation.go:96-115 | once a check-out is acknowledged, in every continuation that has drained the outbox its invoice's closed event is in the log, with the opened event before it |
| Reconciliation.HealthyTicksReachBroker | internal/billing/worker/outbox.go:40-67 | at any point of any run, healthy ticks with room for the backlog drain the outbox |
| Payments.PaymentDesk.CreateRequest | internal/billing/repository/postgres/payment_request.go:31-68 | creates a PENDING request under PAY-id, reports a conflict if that reference is taken, or fails early; the reply says which |
| Payments.PaymentDesk.UpdateStatusByPaymentRef | internal/billing/repository/postgres/payment_request.go:113-149 | status and outbox row change together or not at all, with the reply for every fault |
| Payments.PaymentDesk.HandlePaymentNotification | internal/billing/usecase/handle_payment_notification.go:21-79 | the status switch leaves the store its specification assigns, ignored and unknown statuses included, with the reply for every case and fault |
| Payments.NotificationDecides | internal/billing/usecase/handle_payment_notification.go:41-79 | a request becomes Success exactly on capture or settlement with fraud empty or accept, Failed exactly on those with any other fraud text or on deny, cancel, expire or failure, with one outbox row; every other transaction text changes nothing |
| Payments.NotificationIgnored | internal/billing/usecase/handle_payment_notification.go:31-39 | a notification without an order, of an unknown order or failing early changes nothing |
| Payments.CreationsDoNotCollide | internal/billing/repository/postgres/payment_request.go:31-37 | creations with different ids leave two pending requests with their own details; repeating an id changes nothing |
| Payments.PaymentFold | internal/billing/usecase/handle_payment_notification.go:41-79 | after any run a request exists exactly if it was created, with its original details, the status of its last acting notification or PENDING, and one outbox row per acting notification in order |
| Payments.StatusMatchesLatestRow | internal/billing/repository/postgres/payment_request.go:120-149 | a request's status is that of its most recent outbox row |
| Payments.StatusFollowsLaterVerdicts | internal/billing/repository/postgres/payment_request.go:113-118 | from any point on the status is the last later verdict or what it was, so a success stands exactly if the last later verdict, if any, is a success |
| Payments.SuccessIsNotFinal | internal/billing/repository/postgres/payment_request.go:102-118 | a settled request becomes FAILED on a later expire notification |

## Left out

- Protobuf, gRPC and HTTP plumbing, interceptors, webhook signatures: represented only as open and close calls with arbitrary keys, invoice ids and sessions.
- PostgreSQL, RabbitMQ and sqlx internals: replaced by tables, atomic transactions, a queue and a log of published ids.
- JSON encoding, line metadata and notes, phone-number lookup: no effect on the ledger; an undecodable payload is one event.
- Floating-point hours: an integer ceiling, which agrees below 24 hours, the only durations the hourly rule sees.
- Time-zone history: a fixed UTC+7 offset instead of the Asia/Jakarta database entry.
- Non-canonical uuid spellings: upper-case or braced reservation ids that PostgreSQL would accept as equal are rejected.
- Idempotency store and its interceptor: a cached reply is never used, so deduplication rests on the invoice row.
- Input checks of CreatePaymentRequest other than the invoice lookup, and the payment-service client: easy branches and an external call.
- Several publishing workers: the program starts one.
- Configuration, logging, tracing, Redis and the reconciliation job that the repository's README describes without code.
