# The order deal: a model and its proofs

A client's order collects offers from companies, one of them becomes the executor, uploads
rounds of files and hands work over until the client confirms it. This project models that deal
and the in-process machinery around it, and proves what every interleaving keeps.

Layers, from the rows up:

- `SharedRules`, `OrderStateMachine`, `OrderRecords`: the rule tables, the pure machine, the rows of one order.
- `OrderTransitions`, `OrderWorkflow`: the transactions as functions from rows to rows or a refusal. Effects are applied one at a time there.
- `OrderStore`: the same transactions as the services run them, in place, with loops, batched writes and rollback, each method proved equal to its function.
- `TransitionMeaning`, `OfferSubmission`, `SubmissionRounds`: what each transaction means, stated without the machine's effect lists.
- `OrderNotices`, `OrderEffects`: who is told of what, what each step does when it goes through and why it is refused when not.
- `OrderProtocol`, `OrderInvariants`, `OrderRuns`, `OrderTheorems`, `OfferVersions`: the step system of one order (offers, transitions, the two-phase upload, area, deletion, demo reset, reading of notifications), its invariants and what follows over whole runs.
- `KeyedQueue`, `Slots`, `RateWindow`: the coordination classes, each against a step function or a log that forgets nothing.
- `FileQuota`, `StorageAdmission`: the reservations and the three-level quota over all orders.
- `RealtimeEvents`, `OrderGateway`: who is told and evicted, and the subscribe protocol of the order's room.
- `OrderView`, `OrderPage`, `OrderButtons`: what each viewer gets, what the page recomputes from it, and that its buttons are the server's answers.

A step system's state is a value, its steps are functions and a run is a sequence of steps; a
refused transaction changes no row. Classes stand where the original updates fields in place.

## Where the code promises less than its comments

- The subscribe handler rechecks the participant after joining. If that second check throws, the
  handler answers "retry" and the socket stays in the room. `OrderGateway.StrangerFromTheStart` is a
  run from a new order that ends with a stranger in it; `OrderGateway.RoomIsAccountedForIff` says in
  which runs the room property holds: exactly those without such a throw while nothing else would
  put the room right.
- Quota check and reservation happen in one tick, but the usage is read before it. An upload that
  settles and releases in between is counted nowhere, and the next one is admitted beyond the limit
  (`StorageAdmission.OutdatedReadOverbooks`). `StorageAdmission.NeverRefusedIff` says when admitted
  uploads are never refused later: exactly when each granted admission fits beside what is stored and
  on the way.
- The version check of acceptance compares edit moments. An edit that repeats the moment the client
  saw, within one millisecond or after the clock stepped back, is the same version to it
  (`OfferVersions.EditGoesUnnoticedIff`); `OfferVersions.UnseenTermsIff` says when a deal closes on
  terms the client never saw.

`dafny verify dfyconfig.toml` checks the whole project.

## Model

| member | source | states |
|---|---|---|
| OrderTheorems.OrderAndOffersInLockstep | backend/src/modules/orders/order-transition.service.ts:172-462 | in every reachable state: no executor offer while offers are taken and exactly one afterwards, its status fixed by the order status; pending offers exist exactly while the client has a choice; a waiting order has only withdrawn and refused offers |
| OrderTheorems.DealLasts | backend/src/modules/orders/order-state-machine.ts:386-429 | after acceptance no run changes price, deadline or executor, touches a losing offer, returns the order to taking offers or deletes it; price and deadline are the executor offer's terms |
| OrderTheorems.NoTermsBeforeAcceptance | backend/src/modules/orders/order-state-machine.ts:386-402 | price and deadline are empty exactly until an offer is accepted |
| OrderTheorems.SubmittedRoundIsFinal | backend/src/modules/orders/order-workflow.service.ts:149-290 | a submitted round keeps its row, comment and files in every interleaving of uploads, submissions and disputes, and holds a company file |
| OrderTheorems.RoundsCountDisputes | backend/src/modules/orders/order-workflow.service.ts:371-400 | rounds are 1..n; closed rounds are the disputes, plus one while work is handed over; at most one round is open, and only while work may be uploaded |
| OrderTheorems.OrderFitsItsQuota | backend/src/modules/files/files.service.ts:189-224 | in every interleaving the rows of an order stay within the order limit, and a round never stores a content twice |
| OrderTheorems.StatusAllows | shared/src/orders.ts:35-75 | in every reachable order: deletable exactly while nobody executes it, area verifiable exactly while its executor has not finished, uploads allowed exactly while work may be submitted |
| OrderTheorems.ExpiryIsByDay | shared/src/offers.ts:172-183 | an offer has expired exactly when its last day by UTC is over |
| OrderTheorems.SecondRefusalIsFinal | shared/src/offers.ts:149-164 | from the second refusal on nothing in a run changes the offer's row |
| OrderTheorems.RefusalsAreCounted | backend/src/modules/orders/order-transition.service.ts:429-445 | the stored counter is the number of the client's refusals of that row, through any withdrawals and resubmissions, and never exceeds the limit |
| OrderTheorems.ReadNotificationsStay | backend/src/modules/orders/order-notification.ts:51-68 | no step but reading and the demo reset removes, adds or reorders a read notification; unread ones never repeat an addressee and key |
| OrderTheorems.OneUnreadPerKey | backend/src/modules/orders/order-notification.ts:38-68 | over all runs, past deletion too, two unread notifications of one user never carry the same key |
| OrderTheorems.DeletionTellsCompaniesInPlay | backend/src/modules/orders/orders.service.ts:246-310 | deletion succeeds exactly before work begins, keeps the notifications and tells exactly the companies whose offer was pending, each once, unread, replacing nothing |
| OfferVersions.UnseenTermsIff | backend/src/modules/orders/order-state-machine.ts:590-602 | an acceptance that succeeds closes on other terms than the client saw if and only if the last edit committed in between carries the moment seen and another price or deadline |
| OfferVersions.AcceptedTermsWereSeen | backend/src/modules/orders/order-state-machine.ts:590-602 | with no edit of that company at the moment seen, whatever else ran and however the clock stepped, an acceptance that succeeds closes on the terms the client saw |
| OfferVersions.EditGoesUnnoticedIff | backend/src/modules/orders/order-state-machine.ts:597-602 | after one edit, acceptance presenting the moment seen before it succeeds exactly when the edit repeats that moment and its deadline has not passed, and then takes the new terms |
| OfferVersions.AcceptMeans | backend/src/modules/orders/order-state-machine.ts:583-605 | acceptance succeeds exactly for a pending, unexpired offer whose edit moment is the one presented, and takes its terms |
| OfferVersions.LastEditDecides | backend/src/modules/offers/offers.service.ts:87-134 | over any run an offer carries the terms and the moment of the last edit committed, or its own if there was none |
| OfferVersions.OffersCarryWhatWasSent | backend/src/modules/offers/offers.service.ts:87-134 | from a new order on every offer carries company, price, deadline and comment of its last committed sending, the first one included, and an edit moment exactly if it was not the first |
| OfferVersions.LastSendingDecides | backend/src/modules/offers/offers.service.ts:87-134 | the same from any reachable state; an offer the run never sends is as it was |
| OrderRuns.ReachableWorldsAreOk | backend/src/modules/orders/order-transition.service.ts:172-462 | every reachable state of the protocol satisfies all invariants |
| OrderRuns.RunsOnlyAdvance | backend/src/modules/orders/order-transition.service.ts:172-462 | over any run closed rounds, the deal and final refusals never change |
| OrderRuns.StepKeepsInvariants | backend/src/modules/orders/order-transition.service.ts:172-462 | each step of any interleaving keeps the invariants and only advances the deal |
| OrderRuns.ResetKeepsDeal | backend/src/modules/demo/demo-reset.ts:178-186 | deleting inactive offers of demo companies keeps order and offers in lockstep and the executor in place |
| OrderRuns.ResetKeepsExecutor | backend/src/modules/demo/demo-reset.ts:178-186 | the executor's offer survives the reset, with the deal unchanged |
| OrderRuns.ResetKeepsRows | backend/src/modules/demo/demo-reset.ts:178-186 | the reset keeps offers unique, refusals counted and final refusals as they are |
| TransitionMeaning.TransitionMeans | backend/src/modules/orders/order-transition.service.ts:172-207 | when a command commits, and the exact value of every row afterwards: target and rivals, order columns, untouched files and rounds, notifications |
| TransitionMeaning.EffectsMove | backend/src/modules/orders/order-transition.service.ts:374-462 | the effect list of every event does exactly that to the rows |
| TransitionMeaning.ResultIsDistinct | backend/src/modules/orders/order-state-machine.ts:386-429 | the machine names each offer once and its notifications never replace each other |
| TransitionMeaning.AcceptedShape | backend/src/modules/orders/order-state-machine.ts:386-429 | acceptance names the winner and every rival once, with its own key, and writes the deal once |
| TransitionMeaning.SingleShape | backend/src/modules/orders/order-state-machine.ts:320-384 | every other event names one offer and sends one notification |
| TransitionMeaning.NewStatusOf | backend/src/modules/orders/order-transition.service.ts:429-445 | the update list gives each row its meant status and leaves the others alone |
| TransitionMeaning.OthersCounted | backend/src/modules/orders/order-transition.service.ts:316-328 | the count of other pending offers is positive exactly when one exists |
| OrderStateMachine.OfferAccepted | backend/src/modules/orders/order-state-machine.ts:386-429 | the loop over rivals builds the specified effect list |
| OrderTransitions.OffersAfterEffects | backend/src/modules/orders/order-transition.service.ts:435-445 | applied one by one, effects with unique targets give every row its own new status and nothing else |
| OrderTransitions.NotesAfterEffects | backend/src/modules/orders/order-transition.service.ts:452-459 | one delete for all keys and one insert equal replacing the notifications one by one |
| OrderTransitions.RestAfterEffects | backend/src/modules/orders/order-transition.service.ts:393-450 | order columns are collected independently of offers and notifications; files and rounds are not touched |
| OrderStore.OrderStore.ApplyEffects | backend/src/modules/orders/order-transition.service.ts:374-462 | the batched writes equal the effects applied one at a time |
| OrderStore.GroupOfferIdsByStatus | backend/src/modules/orders/order-transition.service.ts:465-477 | every update is in the group of its status and the groups hold nothing else |
| OrderStore.OrderStore.UpdateOffers | backend/src/modules/orders/order-transition.service.ts:435-445 | one update per group, in any order, gives each row exactly its own new status |
| OrderStore.OrderStore.RunTransition | backend/src/modules/orders/order-transition.service.ts:172-207 | the transition in place equals the transaction; a refusal leaves every row as it was |
| OrderStore.OrderStore.SubmitOffer | backend/src/modules/offers/offers.service.ts:87-134 | upsert and transition commit together or not at all, on the status read before the upsert; what commits is the company's row with the terms sent |
| OrderStore.OrderStore.SubmitWork | backend/src/modules/orders/order-workflow.service.ts:149-184 | transition and closing of the round commit together or not at all |
| OrderStore.OrderStore.OpenSubmission | backend/src/modules/orders/order-workflow.service.ts:371-400 | refused unless work may be uploaded; an open round, of the greatest number, is reused and nothing written; otherwise one row is added, numbered one above the greatest |
| OrderStore.OrderStore.SaveComment | backend/src/modules/orders/order-workflow.service.ts:407-453 | passes exactly while order and round are open; then that round carries the comment and no other row changed |
| OrderStore.OrderStore.InsertFiles | backend/src/modules/files/files.service.ts:189-224 | guard, final check, rows and notification commit together, a new batch row by row and byte by byte; a refusal takes the comment back as well |
| OrderStore.OrderStore.CreateRows | backend/src/modules/files/files.service.ts:201-216 | creates the rows that no stored row of the round duplicates, each with its own file's hash and size |
| OrderStore.OrderStore.DropDuplicates | backend/src/modules/files/files.service.ts:511-536 | the loop keeps the first copies that the round does not hold |
| OrderStore.OrderStore.VerifyArea | backend/src/modules/orders/order-workflow.service.ts:302-348 | writes the area and nothing else of the order, and puts the notice in place of the unread one; the same number again writes nothing |
| OrderStore.OrderStore.Remove | backend/src/modules/orders/orders.service.ts:274-310 | succeeds exactly before work begins; then order, offers, rounds and files are gone, earlier notifications stand, and exactly the companies whose offer was in play are told |
| OrderStore.OrderStore.ResetDemoRows | backend/src/modules/demo/demo-reset.ts:184-187 | an offer stays exactly when it is not of the demo or still in play, a notification exactly when it is not of a demo user |
| OrderInvariants.ExecutorIsUnique | backend/src/modules/orders/order-transition.service.ts:265-282 | in lockstep the unordered executor query has exactly one answer |
| OrderInvariants.WorkEventsNeverMisfire | backend/src/modules/orders/order-transition.service.ts:243-291 | a work event succeeds exactly when the order status allows it; the offer precondition never refuses it |
| OrderInvariants.CommandKeepsDeal | backend/src/modules/orders/order-transition.service.ts:172-207 | every transition keeps order, offers and deal terms in step and the deal unchanged |
| OrderInvariants.CommandKeepsBudget | backend/src/modules/orders/order-transition.service.ts:429-445 | every transition keeps the refusal counter equal to the refusals and finally refused rows unchanged |
| OrderInvariants.CommandStep | backend/src/modules/orders/order-transition.service.ts:172-207 | a transition, refused or committed, keeps all invariants |
| OrderInvariants.AcceptanceMakesDeal | backend/src/modules/orders/order-state-machine.ts:386-429 | acceptance leaves exactly one executor, carrying the deal, and no pending offer |
| OrderInvariants.LeavingKeepsDeal | backend/src/modules/orders/order-state-machine.ts:356-384 | after a withdrawal or refusal the order waits exactly when no pending offer is left |
| OfferSubmission.SubmitMeans | backend/src/modules/offers/offers.service.ts:87-134 | sending commits exactly when the order takes offers and the company has none, a pending one or one it may resubmit; only its own row changes, to the terms sent, field by field |
| OfferSubmission.SubmitOnRow | backend/src/modules/offers/offers.service.ts:115-130 | on the row just written the transition changes no offer and leaves the order awaiting a choice |
| OfferSubmission.UpsertWritesOneRow | backend/src/modules/offers/offers.service.ts:90-120 | a first sending appends the company's row with the terms, unedited and never refused; a later one rewrites its terms, marks it edited and keeps its refusals; one offer per company |
| OfferSubmission.OfferStep | backend/src/modules/offers/offers.service.ts:87-134 | sending an offer keeps all invariants |
| SubmissionRounds.SubmitWorkMeans | backend/src/modules/orders/order-workflow.service.ts:149-184 | work is submitted exactly when the status allows it and the open round holds a company file; only the last round closes |
| SubmissionRounds.OpenIsLast | backend/src/modules/orders/order-workflow.service.ts:460-469 | only the last round can be open, so the query has one answer |
| SubmissionRounds.OpenMeans | backend/src/modules/orders/order-workflow.service.ts:371-400 | a round is opened exactly while work may be uploaded; an open one is reused, a new one is number n + 1 |
| SubmissionRounds.GuardMeans | backend/src/modules/orders/order-workflow.service.ts:432-453 | the guard passes exactly while the round the upload aims at is still open |
| SubmissionRounds.InsertStep | backend/src/modules/files/files.service.ts:189-224 | the guarded insert keeps all invariants, closed rounds and their files |
| SubmissionRounds.OpenUploadStep | backend/src/modules/orders/order-workflow.service.ts:221-223 | opening a round keeps all invariants, with any number of uploads under way |
| SubmissionRounds.SubmitWorkStep | backend/src/modules/orders/order-workflow.service.ts:149-184 | submitting work keeps all invariants, with any number of uploads under way |
| SubmissionRounds.FilesAppended | backend/src/modules/files/files.service.ts:193-216 | new rows go to an open round only, keep contents unique and the order within its limit |
| SubmissionRounds.NothingLostNothingTwice | backend/src/modules/files/files.service.ts:511-536 | every content of a request is in the round already or in the batch, never both, and in the batch once |
| SubmissionRounds.BatchIsInserted | backend/src/modules/files/files.service.ts:201-216 | with nothing stored in between, every file of the batch gets its row, with owner, round, its own hash and its own size |
| SubmissionRounds.NewBatchIsAdded | backend/src/modules/files/files.service.ts:201-216 | the list grows by those rows and its bytes by exactly the bytes of the batch |
| SubmissionRounds.EveryContentStored | backend/src/modules/files/files.service.ts:201-216 | whatever was stored in between, each created row is a file of the batch with its size, and afterwards the round holds every content of the batch |
| SubmissionRounds.AttachMeans | backend/src/modules/files/files.service.ts:138-224 | task files are accepted exactly when they fit, and then stored one by one, byte by byte |
| SubmissionRounds.FitsMeans | backend/src/modules/files/files.service.ts:547-580 | the order's own bytes count at all three limits, the client's other orders at the client's, everyone's at the service's |
| OrderRecords.ReplaceKeepsNotes | backend/src/modules/orders/order-notification.ts:57-68 | replacing keeps one unread notification per addressee and key and every read one |
| OrderRecords.TheOffer | backend/src/modules/orders/order-transition.service.ts:273-282 | with one row per identifier and company a lookup finds that row |
| OrderNotices.AffectedAreToldOnce | backend/src/modules/orders/order-state-machine.ts:404-425 | after a decision of the client a company is told exactly when its offer changed, once, in the kind of its new status (a lost choice is not reported as a refusal) and under the offer's key |
| OrderNotices.ClientIsTold | backend/src/modules/orders/order-state-machine.ts:346-384 | an act of a company tells the client, once, in its kind, and nobody else |
| OrderNotices.NoticesAreStored | backend/src/modules/orders/order-transition.service.ts:452-461 | what a transition reports as notifications is what it stored, in place of unread ones with the same keys |
| OrderNotices.AreaMeans | backend/src/modules/orders/order-workflow.service.ts:302-348 | the area is stored beside the client's own figure and the client has one unread notice of that kind under the order's key; the same number again writes nothing and tells nobody |
| OrderNotices.InsertMeans | backend/src/modules/files/files.service.ts:189-224 | the second half of an upload goes through exactly while its round is open and the bytes fit; it stores every file of a new batch with its hash and size, rewrites that round's comment only and tells the client once |
| OrderRecords.OneDraftReplaces | backend/src/modules/orders/order-notification.ts:57-68 | a new notification takes the place of the unread one with its addressee and key; all others stay, in their order |
| OrderEffects.RefusalNamesTheReason | backend/src/modules/orders/order-state-machine.ts:551-605 | a transition's refusal names the first of its reasons that applies: no such offer or no executor, order status, offer status, final refusal, expired, edited meanwhile |
| OrderEffects.NothingToSubmitComesLast | backend/src/modules/orders/order-workflow.service.ts:149-184 | work is refused for its status first and only then for lack of files |
| OrderEffects.UploadRefusals | backend/src/modules/files/files.service.ts:189-224 | the second half of an upload is refused for the order's status, then for a round already sent, then for the quota |
| OrderEffects.CommandTakesEffect | backend/src/modules/orders/order-transition.service.ts:172-207 | a command that commits leaves the rows as stated and enters the log; a refused one changes nothing |
| OrderEffects.SendingTakesEffect | backend/src/modules/offers/offers.service.ts:87-134 | an offer that may be sent is the company's row afterwards and the order awaits a choice; otherwise nothing changes |
| OrderEffects.SubmissionTakesEffect | backend/src/modules/orders/order-workflow.service.ts:149-184 | work submitted with a file in the open round closes that round and moves the order; otherwise nothing changes |
| OrderEffects.OpeningTakesEffect | backend/src/modules/orders/order-workflow.service.ts:210-223 | an upload begun while work may be uploaded aims at the open round, opened for it if need be |
| OrderEffects.DroppingTakesEffect | backend/src/modules/files/files.service.ts:138-146 | the upload carries on with what its round does not hold yet |
| OrderEffects.InsertTakesEffect | backend/src/modules/files/files.service.ts:189-224 | an upload that finds its round open and room for its bytes stores its files; otherwise no row changes, and either way it is over |
| OrderEffects.CommentTakesEffect | backend/src/modules/orders/order-workflow.service.ts:269-273 | with nothing new to store the open round gets the comment alone |
| OrderEffects.AttachingTakesEffect | backend/src/modules/files/files.service.ts:138-224 | task files that fit are stored, others are not |
| OrderEffects.AreaTakesEffect | backend/src/modules/orders/order-workflow.service.ts:302-348 | the area verified is the order's area, and the client is told of a new number |
| OrderEffects.OtherStepsTakeEffect | backend/src/modules/demo/demo-reset.ts:178-187 | deletion succeeds exactly while offers are taken; the reset keeps exactly what is not of the demo or still in play; reading marks one notification |
| OrderEffects.AfterDeletion | backend/src/modules/orders/orders.service.ts:246-310 | after deletion no step brings the order back or writes to it |
| KeyedQueue.StepKeepsConsistent | backend/src/common/keyed-queue.ts:46-116 | a lane exists exactly while its key is held; one runner per key; the line is bounded and holds exactly the waiting calls |
| KeyedQueue.OutcomesAreFinal | backend/src/common/keyed-queue.ts:59-100 | a refusal or an end is final, and a call refused has never run |
| KeyedQueue.ArrivalIsServed | backend/src/common/keyed-queue.ts:74-115 | an arrival into a line with room stands at its end and has the key after at most as many releases as stood before it plus one, unless it times out |
| KeyedQueue.FreeKeyIsTaken | backend/src/common/keyed-queue.ts:77-80 | an arrival that finds the key free runs at once |
| KeyedQueue.FullLineRefuses | backend/src/common/keyed-queue.ts:82-84 | an arrival that finds the line full is refused and disturbs nobody |
| KeyedQueue.WaitIsBounded | backend/src/common/keyed-queue.ts:86-115 | a waiter with i before it has the key within i + 1 releases unless it times out |
| KeyedQueue.ServedInOrder | backend/src/common/keyed-queue.ts:86-115 | a later waiter does not run while an earlier one waits |
| KeyedQueue.WaiterMoves | backend/src/common/keyed-queue.ts:89-115 | where a waiter stands after each event |
| KeyedQueue.KeyedQueue.Acquire | backend/src/common/keyed-queue.ts:74-100 | granted exactly when the key was free, refused exactly when it was held and its line full, otherwise at the end of the old line |
| KeyedQueue.KeyedQueue.Release | backend/src/common/keyed-queue.ts:103-115 | hands the key to the first waiter or frees it |
| KeyedQueue.KeyedQueue.Timeout | backend/src/common/keyed-queue.ts:89-93 | removes exactly the timed-out waiter from its line |
| KeyedQueue.IndexOf | backend/src/common/keyed-queue.ts:90-91 | finding and splicing takes exactly that waiter out |
| Slots.CeilingHolds | backend/src/common/semaphore.ts:12-51 | over any history never more holders than places, and a line only while all are taken |
| Slots.ArrivalIsServed | backend/src/common/semaphore.ts:33-50 | a caller that finds every place taken joins the end of the line and holds a place after as many releases as stood before it plus one |
| Slots.FreePlaceIsTaken | backend/src/common/semaphore.ts:34-37 | a caller that finds a place takes it |
| Slots.ServedInTurn | backend/src/common/semaphore.ts:39-50 | a waiter stands one place nearer after each release, whoever arrives meanwhile, and is woken in its turn |
| Slots.Semaphore.Acquire | backend/src/common/semaphore.ts:33-45 | a place is taken exactly when one is free; otherwise the caller joins the end of the line |
| Slots.Semaphore.Release | backend/src/common/semaphore.ts:47-50 | the place passes to the first waiter |
| Slots.NewSemaphore | backend/src/common/semaphore.ts:16-20 | a limit below one is an error |
| Slots.UploadSlots.TryAcquire | backend/src/common/upload-slots.ts:28-41 | refused exactly when every slot is held |
| Slots.UploadSlots.Release | backend/src/common/upload-slots.ts:36-40 | repeated releases count once |
| Slots.NewUploadSlots | backend/src/common/upload-slots.ts:21-25 | a limit below one is an error |
| RateWindow.RateWindows.Hit | backend/src/common/rate-window.ts:52-68 | compacted and swept, the window answers exactly as the log that forgets nothing |
| RateWindow.RateWindows.Sweep | backend/src/common/rate-window.ts:74-83 | once an interval exactly the expired windows go, and forgetting them changes no later answer |
| RateWindow.HitKeepsSpacing | backend/src/common/rate-window.ts:52-68 | a hit keeps the log ordered and spaced |
| RateWindow.WindowIsBounded | backend/src/common/rate-window.ts:52-68 | any window of length `ttl` holds at most `limit` recorded hits |
| RateWindow.RetryAfterIsExact | backend/src/common/rate-window.ts:60-62 | the wait named by a refusal is positive and exactly the least after which a hit passes |
| RateWindow.KeptAnswers | backend/src/common/rate-window.ts:56-65 | dropping what is not recent and adding the hit keeps the recent hits those of the whole log, then and at any later time |
| RateWindow.SpacedAt | backend/src/common/rate-window.ts:52-68 | recorded hits `limit` or more apart are at least `ttl` apart |
| FileQuota.MirrorsReserved | backend/src/modules/files/file-quota.ts:133-136 | after a reservation the maps hold the exact positive sums of live reservations |
| FileQuota.MirrorsReleased | backend/src/modules/files/file-quota.ts:140-147 | after a release too |
| FileQuota.NothingRemains | backend/src/modules/files/file-quota.ts:156-162 | once every positive reservation is released no entry remains |
| FileQuota.ScopesAddUp | backend/src/modules/files/file-quota.ts:118-149 | orders add up to their client and clients to the total |
| FileQuota.NarrowestLimitIsNamed | backend/src/modules/files/file-quota.ts:67-103 | files fit exactly when all three limits hold, and a refusal names the narrowest limit passed |
| FileQuota.ReleasedOne | backend/src/modules/files/file-quota.ts:140-147 | a release takes exactly its own bytes from every scope that covers it |
| FileQuota.StorageReservations.Reserve | backend/src/modules/files/file-quota.ts:133-148 | adds one live reservation to the ledger the maps mirror |
| FileQuota.StorageReservations.Release | backend/src/modules/files/file-quota.ts:140-147 | releases that reservation, once |
| FileQuota.StorageReservations.Pending | backend/src/modules/files/file-quota.ts:124-130 | reports the exact pending sums of the three scopes |
| StorageAdmission.NeverRefusedIff | backend/src/modules/files/files.service.ts:435-461 | over any run: the final check never refuses an admitted upload, however the uploads take turns, if and only if at every granted admission stored bytes, bytes on the way and incoming bytes fit the three limits together |
| StorageAdmission.AdmittedIsNeverRefused | backend/src/modules/files/files.service.ts:435-461 | with usage read and reservation taken as one step, from an empty service on, the final check never refuses an admitted upload in any interleaving |
| StorageAdmission.LimitsHold | backend/src/modules/files/files.service.ts:189-224 | the final check alone keeps the rows within all three limits in every run, whatever was admitted |
| StorageAdmission.InsertStoresBytes | backend/src/modules/files/files.service.ts:189-224 | an upload whose guard passes, whose order exists and which fits is stored with its bytes; any other leaves the rows as they were |
| StorageAdmission.FailureFreesTheWay | backend/src/modules/files/files.service.ts:226-242 | a failed upload is no longer on the way, and its reservation stands until released |
| StorageAdmission.ReleaseGivesBack | backend/src/modules/files/files.service.ts:157-161 | a release gives back exactly the upload's bytes |
| StorageAdmission.DeletionFreesBytes | backend/src/modules/orders/orders.service.ts:246-310 | a deleted order's bytes are free again, and no other row is gone |
| StorageAdmission.NotOutdatedFits | backend/src/modules/files/files.service.ts:440-448 | an admission granted on a reading that still holds fits |
| StorageAdmission.StepKeepsInvariant | backend/src/modules/files/files.service.ts:155-199 | each step but an admission that does not fit keeps stored bytes plus bytes on the way within every limit |
| StorageAdmission.AdmissionKeepsHeadroomIff | backend/src/modules/files/files.service.ts:435-449 | a granted admission keeps everything within the limits exactly when it fits |
| StorageAdmission.TooMuchIsRefused | backend/src/modules/files/files.service.ts:452-461 | with more on the way than a limit allows the uploads can take turns so that the final check refuses one of them |
| StorageAdmission.ReservedCoversOnTheWay | backend/src/modules/files/files.service.ts:155-162 | a reservation outlives the upload it was made for |
| StorageAdmission.ReserveStorage | backend/src/modules/files/files.service.ts:435-449 | check and reservation on the shared object admit exactly as the protocol's step, and leave its ledger |
| StorageAdmission.FitsFinally | backend/src/modules/files/files.service.ts:452-461 | what is on the way passes the final check |
| StorageAdmission.OutdatedReadOverbooks | backend/src/modules/files/files.service.ts:440-448 | an admission on usage read before another upload settled is granted although it does not fit |
| StorageAdmission.FullOrderIsAdmitted | backend/src/modules/files/files.service.ts:440-448 | first step to that example: one upload of the whole limit is admitted to an empty order |
| StorageAdmission.FullOrderIsStored | backend/src/modules/files/files.service.ts:189-224 | second step: its rows are stored |
| StorageAdmission.FullOrderIsReleased | backend/src/modules/files/files.service.ts:157-161 | third step: its reservation is given back |
| RealtimeEvents.TransitionBroadcast | backend/src/modules/realtime/realtime-events.ts:105-165 | the loop builds the specified messages and evictions |
| RealtimeEvents.EvictionsAreExact | backend/src/modules/realtime/realtime-events.ts:160-162 | the companies a transition makes inactive are exactly its eviction list |
| RealtimeEvents.OffersStayPrivate | backend/src/modules/realtime/realtime-events.ts:113-158 | what names an offer goes to the client and that offer's company only; room and feed hear the order alone |
| RealtimeEvents.FeedIsTold | backend/src/modules/realtime/realtime-events.ts:138-140 | the feed hears exactly when the order enters or leaves it |
| RealtimeEvents.StatusIsTold | backend/src/modules/realtime/realtime-events.ts:131-143 | a change of the order's status is told to the order's room and to the client |
| RealtimeEvents.UpdatesAreTold | backend/src/modules/realtime/realtime-events.ts:150-156 | every new status of an offer is told to the client and to that offer's company |
| RealtimeEvents.SendingIsTold | backend/src/modules/realtime/realtime-events.ts:120-126 | a sending is told to the client and to the company that sent |
| RealtimeEvents.NoticesAreTold | backend/src/modules/realtime/realtime-events.ts:224-230 | every notification reaches its addressee |
| RealtimeEvents.DeletionIsTold | backend/src/modules/realtime/realtime-events.ts:199-216 | deletion dissolves the room and tells the feed and every addressee |
| RealtimeEvents.UpdatesReportRows | backend/src/modules/realtime/realtime-events.ts:150-162 | the reported updates are exactly the status changes of rows, all of them active before |
| OrderGateway.RoomIsAccountedForIff | backend/src/modules/realtime/order.gateway.ts:226-253 | over any run: every socket in the room is always a participant's, or an eviction for it is pending, or a handler of it has yet to recheck or leave, if and only if no second check throws while its socket is in the room and nothing else would put that right |
| OrderGateway.HarmIsDone | backend/src/modules/realtime/order.gateway.ts:362-371 | a throw that is not harmless leaves a socket in the room that nothing accounts for |
| OrderGateway.QuietRoomHoldsParticipants | backend/src/modules/realtime/order.gateway.ts:226-253 | in such a run, with nothing under way any more, only participants are in the room |
| OrderGateway.ParticipantGetsIn | backend/src/modules/realtime/order.gateway.ts:226-253 | in every interleaving, a handler whose user takes part at both checks and that nothing disturbs ends with its socket in the room, where it stays until something takes it out |
| OrderGateway.SubscriberIsOnItsWay | backend/src/modules/realtime/order.gateway.ts:226-231 | a handler just created is in the state that result starts from |
| OrderGateway.StrangerIsTurnedAway | backend/src/modules/realtime/order.gateway.ts:235-237 | whoever takes no part at the first check is turned away and the room is as it was |
| OrderGateway.StrangerIsSentOut | backend/src/modules/realtime/order.gateway.ts:246-249 | whoever takes no part at the second check is outside when the handler ends, whatever ran in between |
| OrderGateway.UnsubscribedIsOut | backend/src/modules/realtime/order.gateway.ts:255-269 | whoever unsubscribes is out, and nobody else moves |
| OrderGateway.OnlyOwnSocketMoves | backend/src/modules/realtime/order.gateway.ts:226-269 | a handler moves no socket but its own, an unsubscribe none but the one that asked |
| OrderGateway.LobbyStep | backend/src/modules/realtime/order.gateway.ts:226-335 | every step but a harmful throw keeps every socket in the room accounted for |
| OrderGateway.LossIsEvicted | backend/src/modules/realtime/realtime-events.ts:160-206 | whoever a commit or deletion makes a stranger is on the eviction list it sends out |
| OrderGateway.ParticipantsAreNotEvicted | backend/src/modules/realtime/realtime-events.ts:160-206 | nobody who still takes part after a commit or deletion is on its eviction list |
| OrderGateway.FailedCheckLeavesAStranger | backend/src/modules/realtime/order.gateway.ts:239-246 | an eviction that fires before the join and a throwing second check leave the socket in the room with nothing left to remove it |
| OrderGateway.StrangerFromTheStart | backend/src/modules/realtime/order.gateway.ts:231-246 | a whole run from a new order that leads there: offer, connection, subscription, first check, refusal, evictions, join, throwing second check |
| OrderGateway.RefusedCompanyCanStay | backend/src/modules/realtime/order.gateway.ts:239-246 | the part of it from the first check on, for any pending offer |
| OrderGateway.RefusalMakesStranger | backend/src/modules/realtime/order.gateway.ts:457-474 | refusing a pending offer makes its company a stranger to the order |
| OrderGateway.OrderRoomMembers.Evict | backend/src/modules/realtime/order.gateway.ts:327-335 | exactly the targeted sockets leave, whatever the order of the list |
| OrderGateway.EvictStep | backend/src/modules/realtime/order.gateway.ts:327-335 | a socket left in the room by an eviction is not one it was for |
| OrderGateway.HandlerStep | backend/src/modules/realtime/order.gateway.ts:231-252 | each step of a subscribe handler keeps the room accounted for |
| OrderView.StrangersCannotTellApart | backend/src/modules/orders/order-view.ts:193-280 | a viewer with no deal gets identical output for orders alike in public fields, own offer, taking of offers and task files, whatever else differs |
| OrderView.CardShows | backend/src/modules/orders/order-view.ts:193-238 | participants get the order's own status, price, deadline, area and change time, others the masked ones; the sides of the deal get client, both comments, all files with their sum and the rounds, others nothing of it |
| OrderView.SightIsParticipation | backend/src/modules/orders/order-view.ts:129-145 | who sees the progress is exactly who takes part in the order |
| OrderView.PartiesHoldTheDeal | backend/src/modules/orders/order-view.ts:129-145 | the sides of the deal are the client and whoever holds it |
| OrderView.DealTermsShown | backend/src/modules/orders/order-view.ts:148-167 | client and executor read the accepted offer's own price and deadline and the executor's name, on the card and in a list row |
| OrderView.TaskFilesShown | backend/src/modules/orders/order-view.ts:248-256 | outside the deal the files are the client's, while the order takes offers, and none afterwards |
| OrderView.OffersShown | backend/src/modules/orders/order-view.ts:274-280 | the owner is shown exactly the offers in play, a company its own one in any status |
| OrderView.CompaniesSeeTheirOwnOffer | backend/src/modules/orders/order-view.ts:274-280 | no company ever gets another company's offer |
| OrderView.ContractorIsExecutor | backend/src/modules/orders/order-view.ts:162-164 | the contractor shown is the executor, and shown to the two sides only |
| OrderView.ExecutorOfferSuffices | backend/src/modules/orders/order-view.ts:60-66 | the client's list row from the executor's offer alone equals the row from all offers: the order's own status, price and deadline, and the executor |
| OrderView.OwnOfferSuffices | backend/src/modules/orders/order-view.ts:60-66 | a company's list row from its own offer alone equals the row from all offers: the true progress for a participant, the masked one for others |
| OrderView.FeedAgrees | backend/src/modules/offers/available-orders.ts:33-64 | an order is in the feed exactly when sending would succeed and no own offer is pending; the card's permission is exactly that sending would succeed |
| OrderView.FeedMeans | backend/src/modules/offers/available-orders.ts:40-63 | the three-way condition is about the one own offer |
| OrderView.PageMeans | backend/src/modules/orders/order-view.ts:229-236 | the card offers to send exactly to whom the server would let send, and never to the owner |
| OrderPage.ResolveSubmissions | frontend/src/lib/submissions.ts:46-86 | the loop gives the rounds of rows and files, each once and ascending, with exactly its files |
| OrderPage.LatestAndHistory | frontend/src/lib/submissions.ts:77-85 | the greatest round is shown unfolded, all others below it, newest first; the open round is the greatest one if it is not submitted |
| OrderPage.RoundsShownAre | frontend/src/lib/submissions.ts:57-65 | the rounds shown are those of rows and files, each once, ascending |
| OrderPage.AscendingIsUnique | frontend/src/lib/submissions.ts:64-65 | sorted rounds are determined by which rounds there are |
| OrderPage.FileKept | frontend/src/lib/submissions.ts:49-55 | one pass over the files groups them by round in order |
| OrderPage.KeysAreRounds | frontend/src/lib/submissions.ts:57-60 | row numbers and map keys are together the rounds there are |
| OrderButtons.ButtonsMatchServer | frontend/src/lib/order-actions.ts:61-179 | in every reachable state, for everyone who can open the page: each button is shown exactly when its server step would succeed |
| OrderButtons.OnlyTheEntitledSucceed | backend/src/common/guards/ownership.guard.ts:94-112 | whoever asks: only the owner decides on offers and work and deletes, only its company withdraws an offer, only who holds the deal works on the order, only companies send offers |
| OrderButtons.AccessAgrees | frontend/src/lib/order-access.ts:41-62 | ownership, party and sight of the status recomputed from the card are the server's own |
| OrderButtons.OwnOfferOnPage | frontend/src/lib/order-access.ts:50-52 | the page finds the own offer the server decides by |
| OrderButtons.RoundsAreRebuilt | frontend/src/lib/submissions.ts:46-86 | the sides of the deal see exactly the database's rounds with comment, moment and files; nobody else sees any |
| OrderButtons.ExecutorNamed | frontend/src/lib/order-actions.ts:91-95 | the owner's page names the executor exactly when there is one; a company's page calls it the executor exactly when the server's guard would |
| OrderButtons.TaskFilesOnPage | shared/src/offers.ts:117-125 | the task files on the page: all for the sides of the deal, for other companies while offers are taken, by the rule that also decides a download |
| OrderButtons.OpenRoundShown | frontend/src/lib/submissions.ts:77-85 | the open round shown is the server's open round with its files |
| OrderButtons.DecisionsMean | frontend/src/lib/order-actions.ts:72-89 | a decision is shown for every pending offer and no other, marked expired exactly when its deadline has passed, and then not to be accepted |
| OrderButtons.AcceptButton | frontend/src/lib/order-actions.ts:76-80 | accept is shown exactly when accepting the version shown would succeed |
| OrderButtons.RejectButton | frontend/src/lib/order-actions.ts:81-85 | reject is shown exactly when it would succeed |
| OrderButtons.WithdrawButton | frontend/src/components/orders/company-offer-card.tsx:37-106 | withdraw is shown exactly when it would succeed |
| OrderButtons.SendButton | frontend/src/components/orders/order-detail.tsx:113-122 | an offer form is shown exactly when sending would succeed |
| OrderButtons.ConfirmButton | frontend/src/lib/order-actions.ts:97-99 | confirm is shown exactly when it would succeed |
| OrderButtons.DisputeButton | frontend/src/lib/order-actions.ts:100-102 | dispute is shown exactly when it would succeed |
| OrderButtons.SendWorkButton | frontend/src/lib/order-actions.ts:173-176 | submit is shown exactly when the executor's submission would succeed |
| OrderButtons.UploadButtons | frontend/src/lib/order-actions.ts:172-177 | the upload form is shown exactly when guard and opening transaction let the request start; verifying the area exactly when it would succeed |
| OrderButtons.UploadSucceedsIff | backend/src/modules/orders/order-workflow.service.ts:210-290 | undisturbed, a whole upload succeeds exactly when the form is shown and the files not yet stored fit the quota |
| OrderButtons.UploadStoresEverything | backend/src/modules/files/files.service.ts:138-224 | a whole upload stores what its round did not hold, row by row and byte by byte, and the open round carries its comment |
| OrderButtons.NothingIsLost | backend/src/modules/files/files.service.ts:511-536 | afterwards the round holds every content of the request |
| OrderButtons.WorkShown | frontend/src/lib/order-actions.ts:147-179 | what the executor's card offers, in terms of the database |
| OrderButtons.ExecutorHolds | backend/src/common/guards/ownership.guard.ts:105-108 | who passes the executor guard holds the deal |

## Left out

- Text of notifications, labels, dates and money formatting, list filters, pagination, search, form validation and React components: no state depends on them. Money is a whole number of hundredths, a moment a number of milliseconds.
- Companies' names and clients' contacts: the identifier stands for them (`contractor`, `client` of the card).
- A notification's `orderId` and its fate when the order is deleted: notifications simply survive.
- Collapse keys are constructors instead of prefixed strings; a role is part of a user's identifier, so it does not change.
- Database transactions are atomic steps with rollback; lock waiting, timeouts and `FOR UPDATE` are represented by that alone. Access guards are checked together with the transaction they protect; the early refusals of `remove`, `verifyArea` and `addFiles` on the guard's snapshot are not separate steps.
- The bucket: objects, keys, signed URLs and `removeOrphanObjects`. Two uploads of one content to one round share a key, and the clean-up of one can remove the other's object.
- Content hashes are numbers; multer, temporary files and reading from disk are not part of this model.
- OrderProtocol.Next: the usage of the client's other orders and of the service is an arbitrary input of the final check; over several orders it is the subject of `StorageAdmission`.
- StorageAdmission.AdmittedIsNeverRefused: usage is taken as not outdated at admission; in the code it is read one `await` earlier, which `NeverRefusedIff` and `OutdatedReadOverbooks` cover. Transactions of different orders are atomic here, so the margin between concurrent final checks of different orders is not modelled. The rows inserted are any with no more bytes than were admitted.
- OrderGateway.RoomIsAccountedForIff: a user's own room is taken to hold all its sockets from connection on; token expiry, failures while joining or leaving and errors inside the dispatch are not steps. `emit` and the feed's subscription are left out.
- Restarts and several processes: the deployment is one process, and in-memory queues and reservations start empty.
- KeyedQueue.KeyedQueue.Timeout: the original's timer keeps the lane object it was created for; the model looks the lane up by key, which is the same lane as long as the call waits. A call of `run` is its acquire and release steps; what runs in between is not modelled.
- RateWindow.RateWindows.Hit: a key keeps its options and the clock does not go back, as the callers have it; a limit is at least one.
- Keys of queues and windows and identifiers of rows are integers.
- Order creation with its rollback, and the demo reset's removal of the demo's own orders: they delete rows directly and evict no socket.
- OrderView.StrangersCannotTellApart: an offer's own creation and update times are not columns of the model.
- The card lists files in creation order; the original sorts them by round first, which does not change the list of a round.
- `resolveOrderClient`, the available-orders row and the offer lists of a company: restrictions of the card proved here, they would only add easy members.
