# Squeaknode: a verified model

Squeaknode sells access to short encrypted posts, called squeaks. A node stores squeaks, downloads them
from peers, sells the key of a squeak for a lightning payment, and shows squeaks and payments in a web page.
This project models the parts of the node where several steps, threads or nodes have to fit together, and
proves what they keep, in Dafny. `dafny verify dfyconfig.toml` checks all of it.

## How it is built

Database tables are maps and sequences with the uniqueness constraints of `squeaknode/db/models.py`; a row is
addressed by its unique hash. What runs in several threads or on several nodes is a state machine: a datatype
for the state, one step for each access to shared state, and results about every run. What one thread does in
sequence is a class whose fields change in place; each method states its whole effect. A crash between two
writes is `writesLeft` running out in `SqueakDatabase.SqueakDb`, or a task that vanishes in a state machine.

| file | what it models |
|---|---|
| `basics.dfy`, `totals.dfy` | shared types, and sums of amounts over sets of hashes |
| `secret_keys.dfy` | adding and subtracting a nonce on key bytes |
| `squeak_core.dfy` | creating, packaging, unpacking and paying an offer |
| `payment_tables.dfy` | the seller's payment and offer tables |
| `payment_ledger.dfy`, `payment_runs.dfy` | any number of payment-processor tasks, interleaved |
| `payment_restarts.dfy` | restarting the payment processor with cleared indices |
| `two_nodes.dfy`, `purchase_outcomes.dfy` | a buyer beside that seller, with crashes on both sides, and what becomes of each purchase |
| `stop_handshake.dfy` | stopping a task without a lock while it subscribes |
| `squeak_db.dfy`, `payment_processor.dfy`, `squeak_store.dfy`, `peer_downloader.dfy` | the classes of the node, run one at a time |
| `unlock_race.dfy` | deleting a squeak while it is being unlocked |
| `write_limits.dfy` | many threads saving squeaks under the storage limits |
| `offer_race.dfy` | many threads downloading offers for one squeak |
| `honest_peers.dfy` | the peer's side of a download, and runs of downloads |
| `timelines.dfy` | a timeline download from all peers |
| `paging.dfy` | paged queries |
| `screen_lists.dfy`, `squeaks_slice.dfy` | the lists of the web page and their reducers |
| `page_view.dfy`, `page_runs.dfy` | a list whose table changes meanwhile, with one request in flight, and with any number |
| `summaries.dfy` | payment summaries against payment pages |
| `ancestors.dfy` | the recursive query for the squeaks above a reply |
| `payment_subscription.dfy`, `subscription_end.dfy` | the polling subscription to received payments, and how it ends |
| `messages.dfy` | records turned into messages and back |

## What is taken for granted

* The lightning node delivers settled invoices above a subscription's start in increasing order of settle
  index; indices grow; an invoice settles once and not after it expires. The interface says only where
  streaming starts (`squeaknode/lightning/lightning_client.py:92-105`).
* Paying an invoice reveals its preimage, and different preimages have different payment hashes.
* Scalars are taken modulo the order of the group, which is a parameter, and different scalars have different
  payment points. The squeak library (keys, signatures, encryption) is not part of this model; its functions
  are parameters with these properties stated as predicates: `SecretKeys.IsGroup`, `SqueakCore.Sound`,
  `SqueakStorage.SoundNode`.
* A squeak's hash commits to its author, height, time and the hash it replies to.
* Clocks do not run backwards, and row ids grow and become visible in order. The result of a query is fixed when it
  runs.

## What turned out not to hold

The code is modelled as it is. Where a promise fails, the exact condition under which it holds is proved.

* The key round trip returns the same 32 bytes exactly when the key is below the group order
  (`SecretKeys.TweakRoundTrip`); the order itself, written in full width, does not survive
  (`SecretKeys.OrderDoesNotSurvive`).
* With T threads saving squeaks, both limits can be exceeded by T - 1 and by no more
  (`WriteLimits.LimitsUnderConcurrency`, `WriteLimits.BoundsAreReached`).
* Content without a key: a squeak deleted and downloaded again while it is being unlocked ends with content and
  no key (`UnlockRace.DeleteDuringUnlock`). Over whole runs this happens exactly when content is written to a row
  without a key (`UnlockRace.SoundExactlyWhenWritesFindKeys`).
* Reprocessing payments does not always replay them: if the task being replaced stores a new payment after the
  indices are cleared and before the new task reads its cursor, the new task starts above zero and an offer left
  unmarked by an earlier crash stays unmarked (`PaymentRestarts.ReplayStartsAtZeroExactlyWhen`,
  `PaymentRestarts.ReprocessingMissesUnmarkedOffer`). If no task holds a payment or an open stream at the clear, the
  replay starts at zero (`PaymentRestarts.QuietClearReplaysFromZero`).
* The lookup route answers nothing when no key is named, and reads a bound of zero as a bound, because the text
  "0" counts as true; the client's filter ignores both. The two sides agree exactly when some key is named and
  the upper bound is not zero, or the window is empty (`HonestPeers.RouteAgreesExactlyWhen`). With no followed key, or on
  a chain at block zero, a timeline download takes squeaks outside the window or by other authors
  (`Timelines.TimelineFilterIsWindow`).
* A buyer that crashes between paying and recording has spent more than its table says, for good: nothing
  records that purchase later (`PurchaseOutcomes.RecordedExactlyWhen`, `PurchaseOutcomes.LostPurchase`). The two
  ledgers agree exactly when every settled sale was paid by this buyer, in a task that recorded it and did not
  crash first (`PurchaseOutcomes.SumsAgreeExactlyWhen`).
* A buyer that crashes after recording a payment and before saving the key never saves it, though the payment row
  holds it (`PurchaseOutcomes.RecordedWithoutKey`), and a squeak deleted in between makes the save fail
  (`PurchaseOutcomes.RefusedKey`). The key is saved exactly when the task is done with the purchase, no crash hit it
  while it had the purchase in hand, and the squeak was still stored at the last write
  (`PurchaseOutcomes.KeyIsSavedExactlyWhen`).
* A list can repeat rows or fall out of order: opening the page clears the list but not what is in flight, and
  an old answer is appended when it arrives (`PageRuns.OpeningTwiceRepeatsRows`,
  `PageRuns.LateSecondPageUnsorts`). The list is sorted exactly as long as every page arrives below the last item
  (`PageRuns.SortedExactlyWhenPagesArriveBelow`), and also misses no row exactly as long as no page leaves a gap
  above it (`PageRuns.ShowsAllExactlyWhen`). Both hold if no answer outlives its page. An old second page that lands on
  the emptied list gives a list in order that misses the first page (`PageRuns.LateSecondPageMissesRows`).
* Payment pages miss rows stamped later than the first request, and the row with the greatest possible hash at
  that very millisecond (`Summaries.PagesAgreeWithSummary`).
* The subscription's documentation says that `initial_index` is the id of the first payment delivered; the code
  delivers the payments after it. The model follows the code.
* A stopped subscription whose consumer has gone may never end (`SubscriptionEnding.StoppedProducerHangs`): its loop
  over a result does not look at the stop flag. As long as reading raises nothing, it never gets stuck exactly when
  the queue has no limit, or room for the row in hand, all rows left in the result and the pill
  (`SubscriptionEnding.NeverStuckExactlyWhenRoomForAll`), and then it ends after an exact number of steps
  (`SubscriptionEnding.EndsAfterStepsLeft`). With room for the row in hand and the pill alone it may end, if reading
  raises (`SubscriptionEnding.MayEndExactlyWhenRoom`), and can still get stuck if it does not
  (`SubscriptionEnding.RoomForThePillIsNotEnough`). While its consumer reads on it always ends
  (`SubscriptionEnding.EndsWhileRead`).
* T downloads at once can leave T live offers for one squeak and peer, and never more (`OfferRace.AtMostOneEach`,
  `OfferRace.BoundIsReached`, `HonestPeers.TwoFetchesAtOnce`).
* A cursor message loses a zero creation time, an empty key and the recipient (`Messages.SqueakCursorSurvives`,
  `Messages.SentPaymentCursorSurvives`, `Messages.ReceivedPaymentCursorSurvives`).

## Model

| member | source | states |
|---|---|---|
| SecretKeys.CanonicalForm | squeaknode/core/secret_keys.py:37-48 | the bytes written for a scalar below the order are a canonical key and read back as that scalar |
| SecretKeys.TweakScalars | squeaknode/core/secret_keys.py:37-48 | for any input bytes both operations give a canonical key, whose scalar is the sum or difference modulo the order |
| SecretKeys.TweakDifference | squeaknode/core/secret_keys.py:37-48 | subtracting one nonce after adding another shifts the key's scalar by their difference |
| SecretKeys.TweakRoundTrip | squeaknode/core/secret_keys.py:37-48 | for every key and nonce the same bytes come back if and only if the key is canonical |
| SecretKeys.OrderDoesNotSurvive | squeaknode/core/secret_keys.py:37-48 | a failing key: the order written in full width comes back as the key of the zero scalar |
| SecretKeys.WrongTweak | squeaknode/core/secret_keys.py:37-48 | with another nonce the key comes back if and only if the nonces agree modulo the order |
| SecretKeys.TweakInjective | squeaknode/core/secret_keys.py:37-41 | under one nonce, canonical keys with the same tweaked bytes are equal |
| SqueakCore.PointDeterminesKey | squeaknode/core/squeak_core.py:338-340 | two canonical keys have the same payment point if and only if they are equal |
| SqueakCore.HonestSale | squeaknode/core/squeak_core.py:178-357 | an honest offer, whose payment request the lightning node decodes as it reaches the buyer, keeps hashes, price, nonce, expiry, payment request and addresses through create, package and unpack; the buyer is told to pay at the configured address, else the reported one, with the seller's host where none is given; paying yields the seller's key, valid and accepted by the store, under the offer's hash, price, peer and destination |
| SqueakCore.UnpackFailsExactlyWhen | squeaknode/core/squeak_core.py:278-304 | an offer is refused if and only if it is on another squeak or, where the check is on, its invoice pays another point |
| SqueakCore.ValidPayment | squeaknode/core/squeak_core.py:327-357 | whatever the seller and the preimage: a payment is valid if and only if the store accepts the recovered key, if and only if it is the squeak's one canonical key |
| SqueakCore.AnnouncedNonceMatters | squeaknode/core/squeak_core.py:197-203 | a sale under a nonce other than the announced one is valid if and only if the nonces are congruent |
| SqueakCore.PaymentHashNamesKey | squeaknode/core/squeak_core.py:202-207 | under one nonce two canonical keys have the same payment hash if and only if they are equal |
| PaymentTables.InsertReceivedPayment | squeaknode/db/squeak_db.py:1414-1438 | afterwards the hash is stored, no other hash has come or gone, no row has changed, and hashes stay unique |
| PaymentTables.LatestSettleIndex | squeaknode/db/squeak_db.py:1573-1582 | the greatest stored settle index, and zero for an empty table |
| PaymentTables.ClearSettleIndices | squeaknode/db/squeak_db.py:1584-1591 | every row is kept with its settle index zeroed, so the next cursor is zero |
| PaymentTables.DeleteExpiredSentOffers | squeaknode/db/squeak_db.py:189-195 | an offer is kept unchanged exactly while now is before timestamp + expiry + retention |
| PaymentTables.SumIsTotal | squeaknode/db/squeak_db.py:1414-1438 | a table without repeats that carries the offers' prices sums to the total over its hashes |
| PaymentLedger.StepEvolves | squeaknode/node/payment_processor.py:91-138 | no step takes back a settlement, a sale, a recorded hash or the paid flag of a settled stored offer |
| PaymentLedger.StepKeepsCursor | squeaknode/node/payment_processor.py:91-105 | after every step, every settled index up to the stored cursor has its payment or was scanned without an offer |
| PaymentLedger.DelivererOk | squeaknode/core/squeak_core.py:383-400 | delivering the next settled invoice skips none: what a task has passed is recorded or was missing its offer, and marked; the task moves on to that invoice and, exactly if its offer is stored, holds a payment with the offer's squeak, price and buyer and the invoice's index |
| PaymentLedger.FailedStreamRestarts | squeaknode/node/payment_processor.py:91-112 | after a failure a task subscribes anew from the greatest settle index stored by then |
| PaymentLedger.DeletionIsTimely | squeaknode/db/squeak_db.py:1391-1402 | a deletion takes exactly the offers whose invoice has been expired for the retention interval, and nothing else |
| PaymentLedger.StepKeepsInv | squeaknode/node/payment_processor.py:91-138 | every database access of every task, and every clear, sale, settlement and expiry, keeps the ledger invariant |
| PaymentRuns.RunKeepsInv | squeaknode/node/payment_processor.py:91-138 | the ledger invariant holds at every state of every run |
| PaymentRuns.MissedWasAbsent | squeaknode/core/squeak_core.py:390-391 | an invoice counts as missed only if a scan found no offer for it |
| PaymentRuns.GapFreeCursor | squeaknode/node/payment_processor.py:91-138 | for any overlapping tasks, failures, crashes and clears: an invoice at or below the stored cursor whose offer was there when scanned has exactly one payment row, with the offer's own squeak, price and buyer and, unless cleared to zero, the invoice's settle index |
| PaymentRuns.OfferOutlivesWindow | squeaknode/db/squeak_db.py:1391-1402 | in every timed run, the offer of an invoice is still stored while the retention interval has not passed since the step in which the invoice settled |
| PaymentRuns.InTimeIsFound | squeaknode/node/squeak_store.py:244-285 | an invoice scanned in time always finds its offer |
| PaymentRuns.PaidOfferHasPayment | squeaknode/node/payment_processor.py:122-138 | at every crash point a paid offer has exactly one payment row |
| PaymentRuns.FullReplayHeals | squeaknode/node/payment_processor.py:91-138 | after a drained replay from zero a stored offer is marked paid if and only if its payment is recorded |
| PaymentRuns.ClearKeepsSum | squeaknode/db/squeak_db.py:1584-1591 | a clear loses neither a payment hash nor a price |
| PaymentRestarts.CursorAfterClear | squeaknode/node/squeak_controller.py:391-393 | in every run, after a clear the stored cursor is zero if and only if no task has stored a new payment since |
| PaymentRestarts.ReplayStartsAtZeroExactlyWhen | squeaknode/node/squeak_controller.py:391-393 | a task that reads its cursor after a clear replays from zero if and only if no task, such as the one being replaced, stored a new payment in between |
| PaymentRestarts.QuietClearReplaysFromZero | squeaknode/node/squeak_controller.py:391-393 | if no task holds a payment or an open stream at the clear, the first task to read its cursor afterwards replays from zero |
| PaymentRestarts.ReprocessingHeals | squeaknode/node/squeak_controller.py:391-393 | if none did, and the new stream drains uninterrupted, a stored offer is marked paid if and only if its payment is recorded |
| PaymentRestarts.ReprocessingMissesUnmarkedOffer | squeaknode/node/payment_processor.py:48-57 | for any two sales, a run in which the old task stores its payment after the clear, and a recorded sale stays unmarked though the new stream has drained |
| PaymentRuns.ReceivedWithinSold | squeaknode/core/squeak_core.py:390-400 | every recorded payment is for a settled sale, and the recorded sum is the total of those offers' prices |
| PaymentRuns.DrainedTotal | squeaknode/node/payment_processor.py:91-138 | once a stream has drained and every look-up found its offer, the recorded payments are exactly the settled sales and sum to their prices |
| TwoNodes.LedgerRunIsRun | squeaknode/node/payment_processor.py:91-138 | the seller's side of a two-node run is a run of the payment ledger |
| TwoNodes.HonestPurchase | squeaknode/core/squeak_core.py:318-357 | paying an honest offer yields a valid payment that carries the seller's key and the offer's price and squeak |
| TwoNodes.BuyerStep | squeaknode/node/squeak_store.py:212-230 | each event of either node, squeaks stored or deleted and keys given away by peers among them, keeps: honest sales, matching offers and payments, keys only of stored squeaks and each opening its own, and at most one open purchase of an invoice |
| TwoNodes.DeletedOfferIsNotPaid | squeaknode/node/squeak_store.py:212-220 | a deleted offer can no longer be paid, and the others are as before |
| TwoNodes.SystemKeepsInv | squeaknode/node/squeak_store.py:212-265 | both nodes keep their invariants at every state of every run with crashes between writes |
| TwoNodes.PaymentIsSale | squeaknode/node/squeak_store.py:212-230 | every payment the buyer has recorded is for exactly one settled invoice, at the sold price and squeak, with the seller's key |
| TwoNodes.PaidOfferHasKey | squeaknode/node/squeak_store.py:221-229 | at every state an offer marked paid has its payment row, with the seller's key in it |
| TwoNodes.TwoNodeConservation | squeaknode/core/squeak_core.py:178-408 | once drained with every look-up finding its offer: each recorded purchase has one payment row with the same price and squeak; the buyer's sum is at most the seller's, and equal if and only if every settled sale is in the buyer's table |
| PurchaseOutcomes.PurchaseOutcome | squeaknode/node/squeak_store.py:212-230 | since it was paid, a purchase is at every state of every run exactly one of: still to be recorded by its task, recorded, or lost when its task crashed before recording it |
| PurchaseOutcomes.LostStays | squeaknode/node/squeak_store.py:221-222 | an invoice paid, unrecorded and held by no task stays so under every event of either node |
| PurchaseOutcomes.RecordedExactlyWhen | squeaknode/node/squeak_store.py:221-230 | a paid invoice is in the buyer's table if and only if its task is past recording it and no crash hit the task before; no task saves the key of a lost one |
| PurchaseOutcomes.KeyIsSavedExactlyWhen | squeaknode/node/squeak_store.py:212-230 | the task that paid has saved the key if and only if it is done with the purchase, no crash hit it while it had the purchase in hand, and the squeak was still stored at the last write; the buyer then holds a key of that squeak unless the squeak has been deleted since |
| PurchaseOutcomes.SaveKeySaves | squeaknode/node/squeak_store.py:226-229 | what the last write of a purchase saves is the seller's own key |
| PurchaseOutcomes.KeyIsHeldExactlyWhen | squeaknode/client/peer_downloader.py:112-126 | in every state of every run the buyer holds the key of a squeak if and only if the last write of a purchase, or a peer that gave it away, put it to the stored squeak, and the squeak has not been deleted since |
| PurchaseOutcomes.RecordedWithoutKey | squeaknode/node/squeak_store.py:221-230 | for any honest offer, a run in which the buyer records the payment, with the key in it, and crashes before saving the key |
| PurchaseOutcomes.RefusedKey | squeaknode/node/squeak_store.py:150-165 | for any honest offer, a run without a crash in which the payment is recorded and the offer marked, and the squeak is deleted before the key is saved: the key is refused |
| PurchaseOutcomes.SumsAgreeExactlyWhen | squeaknode/core/squeak_core.py:318-408 | once drained with every look-up finding its offer, the two sums agree if and only if every settled sale was paid by this buyer in a task that recorded it and did not crash first |
| PurchaseOutcomes.LostPurchase | squeaknode/node/squeak_store.py:221-222 | for any honest offer, a run in which the buyer crashes between paying and recording: the seller has the price, the buyer's table shows nothing spent, and no key is held |
| StopHandshake.StepKeepsInv | squeaknode/node/payment_processor.py:85-112 | every step of the loop, an uncaught error included, of a stop call and of the stream keeps the handshake invariant |
| StopHandshake.NewestIsCancelled | squeaknode/node/payment_processor.py:85-105 | once a stop call has returned and the loop has passed its check the newest subscription is cancelled, and at most one was opened after the flag |
| StopHandshake.LoopIsNeverStuck | squeaknode/node/payment_processor.py:91-112 | after a stop call has returned the loop can always take a step until it has exited |
| StopHandshake.LoopWindsDown | squeaknode/node/payment_processor.py:91-112 | after the flag is set the loop takes a bounded number of steps plus one for each item that still arrives |
| StopHandshake.NothingArrivesAfterCancel | squeaknode/node/payment_processor.py:102-105 | once cancelled, the stream the loop reads brings no further item |
| StopHandshake.StoppedLoopExits | squeaknode/node/payment_processor.py:91-112 | once a stop call has returned and the loop has passed its check, the loop takes at most three steps more than there are items buffered, has then exited, and can take a step until it has |
| StopHandshake.ItemsArriveAtOpenStream | squeaknode/node/payment_processor.py:97-105 | an item arrives only between a subscription and the end of its stream, and only while it is not cancelled |
| StopHandshake.EndsEarlyOnlyByError | squeaknode/node/payment_processor.py:91-112 | a loop that has ended before any stop had an uncaught error on subscribing or on an item |
| StopHandshake.OneSubscriptionServes | squeaknode/node/payment_processor.py:91-105 | without errors and stop calls the loop opens one subscription and stays with it |
| StopHandshake.Serves | squeaknode/node/payment_processor.py:91-105 | for every n, a run in which the loop subscribes once and handles n items |
| StopHandshake.BreaksAt | squeaknode/node/payment_processor.py:104-112 | for every n, a run in which an error on the n-th item ends the loop |
| StopHandshake.FailedStreamIsReplaced | squeaknode/node/payment_processor.py:106-112 | for every n, a run in which the stream fails after n items and the loop subscribes again |
| StopHandshake.StoppedWhileWaiting | squeaknode/node/payment_processor.py:85-112 | a run in which a stop call cancels the stream the loop waits at, and the loop ends |
| StopHandshake.StoppedWhileSubscribing | squeaknode/node/payment_processor.py:85-103 | the race: a run in which the stop call finds nothing to cancel and the loop cancels its own new subscription and ends |
| SqueakDatabase.SqueakDb.InsertSqueak | squeaknode/db/squeak_db.py:209-239 | a new squeak is stored as locked; a stored one is left as it is and false returned; a refused write changes nothing |
| SqueakDatabase.SqueakDb.SetSqueakSecretKey | squeaknode/db/squeak_db.py:929-937 | only the key of that row changes, if the row exists |
| SqueakDatabase.SqueakDb.SetSqueakDecryptedContent | squeaknode/db/squeak_db.py:939-947 | only the content of that row changes, if the row exists |
| SqueakDatabase.SqueakDb.DeleteSqueak | squeaknode/db/squeak_db.py:969-975 | exactly that row goes |
| SqueakDatabase.SqueakDb.InsertReceivedOffer | squeaknode/db/squeak_db.py:1071-1101 | a new payment hash is stored; a known one changes nothing |
| SqueakDatabase.SqueakDb.MarkReceivedOfferPaid | squeaknode/db/squeak_db.py:1147-1155 | the paid flag of that offer is set and nothing else changes |
| SqueakDatabase.SqueakDb.DeleteOldReceivedOffers | squeaknode/db/squeak_db.py:1134-1145 | exactly the offers out of retention go |
| SqueakDatabase.SqueakDb.InsertSentPayment | squeaknode/db/squeak_db.py:1157-1174 | a new payment hash is stored; a known one raises and changes nothing |
| SqueakDatabase.SqueakDb.InsertSentOffer | squeaknode/db/squeak_db.py:1324-1342 | a new payment hash is stored; a known one raises and changes nothing |
| SqueakDatabase.SqueakDb.SaveReceivedPayment | squeaknode/db/squeak_db.py:1414-1438 | the table becomes that of the idempotent insert |
| SqueakDatabase.SqueakDb.MarkSentOfferPaid | squeaknode/db/squeak_db.py:1404-1412 | the paid flag of that offer is set and nothing else changes |
| SqueakDatabase.SqueakDb.ClearReceivedPaymentSettleIndices | squeaknode/db/squeak_db.py:1584-1591 | the table becomes that of the cleared indices |
| PaymentProcessing.PaymentProcessorTask.StopProcessing | squeaknode/node/payment_processor.py:85-89 | the flag is set and the newest subscription, if any, is cancelled |
| PaymentProcessing.PaymentProcessorTask.GetLatestSettleIndex | squeaknode/node/payment_processor.py:114-115 | the greatest stored settle index, or zero |
| PaymentProcessing.PaymentProcessorTask.HandleReceivedPayment | squeaknode/node/payment_processor.py:122-138 | records the payment and marks its offer, and returns, exactly if two writes are accepted; with one it has recorded it, with none it has done nothing; paid offers keep having payments |
| PaymentProcessing.PaymentProcessorTask.ProcessStream | squeaknode/node/payment_processor.py:104-105 | the loop gets to its end exactly if there are two writes for each sale among the invoices; the books are then those of all invoices in order, and otherwise those of the prefix the writes allow, at most one payment ahead of its mark; offers change only in whether they are paid, earlier payments stay, and each new row is a sale: the offer's squeak, price and buyer under the invoice's hash and index |
| PaymentProcessing.PaymentProcessor.StartProcessing | squeaknode/node/payment_processor.py:48-57 | a new task is current, the old one has been stopped and cancelled; of all tasks ever started only the current one may run |
| PaymentProcessing.PaymentProcessor.StopProcessing | squeaknode/node/payment_processor.py:59-62 | every task ever started has been told to stop |
| PaymentProcessing.PaymentProcessor.ReprocessReceivedPayments | squeaknode/node/squeak_controller.py:391-393 | returns exactly if the clear is accepted: a new task is current, no payment is lost, the table is the cleared one and what the old task records after the clear, as far as its writes are accepted; the cursor is zero if and only if none of that was new |
| PaymentProcessing.ScanCatchesUp | squeaknode/node/payment_processor.py:122-138 | after a scan every scanned settled invoice with a stored offer is recorded and marked, and earlier rows are kept |
| PaymentProcessing.NewRowsAreSales | squeaknode/core/squeak_core.py:383-400 | each row that a scan adds carries the squeak, price and buyer of the stored offer and the hash and settle index of a settled invoice of the scan |
| PaymentProcessing.ReplayIsIdle | squeaknode/node/payment_processor.py:122-138 | scanning any of the same invoices again, in any order and with any indices, changes nothing |
| SqueakStorage.InsertKeepsLimits | squeaknode/node/squeak_store.py:127-141 | an insert after both counts passed keeps the total and every author-and-height group within limits |
| SqueakStorage.JoinIsOneRow | squeaknode/db/squeak_db.py:767-800 | unique public keys make the two outer joins give one row for a squeak, with the author's profile if there is one |
| SqueakStorage.QueryIsFilter | squeaknode/db/squeak_db.py:767-800 | the retention query selects each squeak that is old, not liked and not by a signing profile, once, and no other |
| SqueakStorage.DeletingSelected | squeaknode/node/squeak_store.py:606-616 | deleting the first i hashes of the selection removes i squeaks and no retained one, and all of it leaves only retained ones |
| SqueakStorage.SqueakStore.SaveSqueak | squeaknode/node/squeak_store.py:122-148 | raises exactly when the squeak is invalid or names another block than the chain has at its height, the table or the author's group at that height is full, or the write fails; otherwise stores it if new; keeps both limits and every row sound |
| SqueakStorage.SqueakStore.SaveSecretKey | squeaknode/node/squeak_store.py:150-165 | returns exactly when the squeak is stored, the key passes the check, a public squeak decrypts under it and the writes are accepted; the row then holds the key, and a public squeak its decryption; no other row changes |
| SqueakStorage.SqueakStore.UnlockSqueak | squeaknode/node/squeak_store.py:167-210 | returns exactly when a key is stored, the named profile (recipient first) can view, decryption succeeds and the write is accepted; the content is then that decryption; a failure changes nothing |
| SqueakStorage.SqueakStore.PayOffer | squeaknode/node/squeak_store.py:212-230 | returns exactly when the offer is known, paid for the first time and its recovered key can be saved; payment, paid flag and key are then stored; at every failure point a paid offer has a payment with its recovered key, and no key is lost |
| SqueakStorage.SqueakStore.GetSentOfferForPeer | squeaknode/node/squeak_store.py:244-265 | hands out an offer exactly if the key is held, an invoice is made, its payment hash is new and the write is accepted, and has then saved it first, unpaid; without key or invoice it returns none, and otherwise it raises; nothing else is saved |
| SqueakStorage.SqueakStore.HandleOffer | squeaknode/node/squeak_store.py:573-579 | the unpacked offer is stored if its payment hash is new; raises exactly when the squeak hash differs or the write fails |
| SqueakStorage.SqueakStore.DeleteOldSqueaks | squeaknode/node/squeak_store.py:606-616 | returns exactly if the writes cover the squeaks to delete, and then a squeak is left exactly if it is no older than the retention interval, or liked, or its author's profile holds a private key; a run cut short has deleted as many as there were writes, and none of these |
| UnlockRace.ContentWriteIsSafe | squeaknode/node/squeak_store.py:204-207 | writing decrypted content keeps the row sound if and only if the row is gone or still holds a key |
| UnlockRace.OtherStepsAreSafe | squeaknode/node/squeak_store.py:150-207 | every other step keeps content explained by the stored key |
| UnlockRace.SoundExactlyWhenWritesFindKeys | squeaknode/node/squeak_store.py:167-239 | in every interleaving, content has come with a key that explains it in every state so far if and only if every write of content found no row or a row with a key |
| UnlockRace.QuietDeletesKeepContentExplained | squeaknode/node/squeak_store.py:150-239 | if squeaks are deleted only while no unlock is under way, content comes with its key in every interleaving |
| UnlockRace.DeleteDuringUnlock | squeaknode/node/squeak_store.py:167-239 | a run of any unlockable squeak that ends with content and no key |
| UnlockRace.DeleteAfterGivingUp | squeaknode/node/squeak_store.py:167-239 | a run in which an unlock gives up before the squeak is deleted, so that the deletion counts as quiet |
| WriteLimits.LimitsUnderConcurrency | squeaknode/node/squeak_store.py:127-141 | with T interleaved writers the table holds at most its limit + T - 1, and each group its limit + T - 1 |
| WriteLimits.LimitsAreExactSequentially | squeaknode/node/squeak_store.py:127-141 | one writer keeps both limits exactly |
| WriteLimits.DeletingMakesRoom | squeaknode/node/squeak_store.py:127-141 | at a full table no writer passes the first count, and once a stored squeak is deleted an idle one does |
| WriteLimits.BoundsAreReached | squeaknode/client/network_controller.py:69-81 | a possible run in which T writers that count before any inserts add T squeaks |
| WriteLimits.GroupBoundIsReached | squeaknode/db/squeak_db.py:747-765 | in that run one author and height gain T squeaks |
| PeerDownloading.PeerDownloader.DownloadSqueak | squeaknode/client/peer_downloader.py:83-110 | ends and leaves what `SqueakStep` says for every answer, room and number of writes; only the requested hash, within the filter and acceptable, is added |
| PeerDownloading.PeerDownloader.DownloadSecretKey | squeaknode/client/peer_downloader.py:112-139 | ends and leaves what `KeyStep` says for every answer and number of writes; no squeak is added, stored keys have passed the check, no offer goes, and at most one live offer exists for each squeak and peer; where no key is given, an offer is stored with the peer's terms, unless one of the peer is unpaid and unexpired, which leaves the table as it is |
| PeerDownloading.PeerDownloader.DownloadInterestRange | squeaknode/client/peer_downloader.py:55-74 | ends and leaves what `PeerRun` says; wherever a run stops: every added squeak was listed, lies in the non-zero bounds and non-empty key list and is acceptable, every stored key passed its check, and no offer went; it returns if all answers pass the checks, there is room for all listed squeaks and the writes are enough |
| PeerDownloading.RunGains | squeaknode/client/peer_downloader.py:55-139 | however a run ends: only wanted squeaks gained, no key replaced, no offer lost, no second live offer, at most three writes for each listed hash; a run that returns has fetched all there was to fetch |
| PeerDownloading.WillFinishIsEnough | squeaknode/client/peer_downloader.py:55-139 | answers that pass the checks, room for all listed squeaks in the total and in each group, and three writes for each are enough for a run to return |
| PeerDownloading.PeerDownloader.DownloadSingleSqueak | squeaknode/client/peer_downloader.py:76-81 | ends and leaves what the squeak step and, if that returns, the key step say; the same guarantees for one hash without a filter |
| HonestPeers.SelectedExactlyWhen | squeaknode/db/squeak_db.py:682-731 | selects exactly the stored squeaks that meet every restriction that counts as given |
| HonestPeers.LookupIsSorted | squeaknode/db/squeak_db.py:715-719 | the hashes come in the order of the rows, strictly descending |
| HonestPeers.QueryAgreesWithFilter | squeaknode/client/peer_downloader.py:102-107 | called with numbers, the query selects exactly what the client's filter accepts |
| HonestPeers.RouteAgreesExactlyWhen | squeaknode/server/app.py:92-104 | through the web route they agree if and only if some key is named and the upper bound is not zero, or the window is empty |
| HonestPeers.TimelineWindow | squeaknode/client/network_controller.py:61-62 | the window ends at the latest block, is no longer than the interval, and shorter only at the first block |
| HonestPeers.TimelineRangeAgrees | squeaknode/client/network_controller.py:57-81 | a timeline download asks for a range both sides agree on if and only if some key is followed and the chain has left block zero |
| HonestPeers.HonestPeerConvergence | squeaknode/client/peer_downloader.py:55-139 | what a run against an honest peer amounts to: every matching squeak held, each free key held, each sold key held or under a live offer, and what was held as it was |
| HonestPeers.HonestRunFinishes | squeaknode/client/peer_downloader.py:55-139 | against an honest peer whose squeaks and keys pass the checks, with no limit hit in the total or in any group and writes enough, no step of a run raises |
| Timelines.DownloadTimeline | squeaknode/client/network_controller.py:57-81 | whatever the peers answer, each is asked in turn with what the ones before left, and its own outcome and effect are those of `PeerRun`; only listed, acceptable squeaks are added, at heights from the latest block less the interval up to the latest and by followed keys, no key is replaced, no offer lost and no second live offer gained; if all peers can be served, every run returns and every squeak of theirs in that window by a followed key is held, its key too or an open offer for it |
| Timelines.ServedInTurn | squeaknode/client/network_controller.py:57-81 | whatever the other peers do, a peer that is well stocked when its turn comes is asked without failure, and by the end the node has caught up with it and keeps what it held |
| Timelines.AllAreServed | squeaknode/client/network_controller.py:57-81 | checked before the call: if all peers are honest with sound stocks that agree on what a hash names, all offers are new across all peers, everything selected fits both limits, and the writes cover all listings, then every run returns and the node has caught up with every peer |
| Timelines.PeersGain | squeaknode/client/network_controller.py:57-81 | from any peer's turn to any later one nothing is lost and only listed, acceptable squeaks in the window by followed keys are gained |
| Timelines.TimelineFilterIsWindow | squeaknode/client/network_controller.py:57-81 | the client takes exactly the squeaks from max(0, latest - interval) to the latest block by followed keys if and only if some key is followed and the chain has left block zero |
| HonestPeers.SecondRunIsIdle | squeaknode/client/peer_downloader.py:55-139 | an immediate second run changes no table |
| HonestPeers.NeverTwoLiveOffers | squeaknode/db/squeak_db.py:1071-1155 | over all sequential runs of fetches, payments, deletions of offers, ticks and any changes to squeaks and keys, no squeak has two live offers from one peer |
| HonestPeers.ClosedOfferIsReplaced | squeaknode/client/peer_downloader.py:128-139 | once no offer of the peer is unpaid and unexpired, the next one is stored |
| HonestPeers.TwoFetchesAtOnce | squeaknode/client/peer_downloader.py:128-139 | two downloads that both looked before either stored its offer leave two live offers if and only if the payment hashes differ |
| OfferRace.AtMostOneEach | squeaknode/client/peer_downloader.py:128-139 | with T downloaders interleaved between look and store, and other offers, payments, deletions and the clock besides, a squeak never has more than T live offers from one peer; with one, never more than one |
| OfferRace.BoundIsReached | squeaknode/client/peer_downloader.py:128-139 | whenever no offer is live and T downloaders get offers under different new payment hashes, a run in which all look before any stores ends with T live offers |
| OfferRace.LookExactlyWhen | squeaknode/db/squeak_db.py:1103-1119 | a downloader goes on to ask for an offer exactly while no offer of the peer for the squeak is unpaid and unexpired |
| OfferRace.OthersTakePart | squeaknode/client/peer_downloader.py:128-139 | offers for other squeaks or from other peers come in, offers are deleted and time passes without a downloader, each changing only that |
| OfferRace.OfferAfterOffer | squeaknode/client/peer_downloader.py:128-139 | a run in which a downloader gives up, takes an offer, and takes another once that is paid |
| Paging.TupleOrder | squeaknode/db/squeak_db.py:332-343 | comparing keys compares positions first, then hashes |
| Paging.LessIsTotal | squeaknode/db/squeak_db.py:332-343 | exactly one of below, equal and above holds for two keys |
| Paging.PositionThenHashIsRanking | squeaknode/db/squeak_db.py:344-348 | a key of fixed-width position and hash identifies its row |
| Paging.BelowFirstSqueakCursor | squeaknode/db/squeak_db.py:300-302 | a first page can show a squeak if and only if it is not stamped at or beyond height and time 999999999999 and the hash of 32 bytes 255 |
| Paging.BelowFirstPaymentCursor | squeaknode/db/squeak_db.py:1446-1447 | a first page can show a payment if and only if it is older than the request, or of that millisecond and not of the greatest hash |
| Paging.Page | squeaknode/db/squeak_db.py:294-354 | a page is strictly descending, within the limit, below the cursor and as stored; a row it leaves out is below all of it and the page is full |
| Paging.DescendingIsUnique | squeaknode/db/squeak_db.py:344-348 | the order leaves one possible list for a set of rows |
| Paging.RestOfList | squeaknode/db/squeak_db.py:332-349 | what lies below the m-th item is exactly the rest of the sorted list |
| Paging.PagesAreThePrefix | squeaknode/db/squeak_db.py:294-354 | on a fixed table k requests of size L show exactly the first min(kL, n) rows of the sorted list |
| Paging.PagesShowTheTable | squeaknode/db/squeak_db.py:347-354 | each row is shown as the table holds it |
| Paging.EverySqueakIsShown | squeaknode/db/squeak_db.py:294-354 | if heights are below 2^31 and times below 2^32, pages enough for the table show each squeak once as stored, the highest and among those the latest first |
| ScreenLists.UpdateKeepsHashes | frontend/src/features/squeaks/squeaksSlice.js:200-205 | an update keeps the length, the order and the hash of every item |
| ScreenLists.UpdateShowsNewValue | frontend/src/features/squeaks/squeaksSlice.js:200-205 | without repeats, an update shows the new value at that hash and changes no other item |
| ScreenLists.UpdateSqueakInArray | frontend/src/features/squeaks/squeaksSlice.js:200-205 | the scan writes the first slot of that hash, and none if it is absent |
| ScreenLists.RemoveKeepsTheRest | frontend/src/features/squeaks/squeaksSlice.js:207-209 | a removal drops that hash and no other |
| ScreenLists.RemoveKeepsOrder | frontend/src/features/squeaks/squeaksSlice.js:207-209 | a removal keeps a descending list descending |
| ScreenLists.AppendDescendsExactlyWhen | frontend/src/features/squeaks/squeaksSlice.js:310-314 | appending a sorted page keeps a list strictly descending if and only if the page begins below its last item |
| SqueaksSlices.SqueaksSlice.SelectLastTimelineSqueak | frontend/src/features/squeaks/squeaksSlice.js:416-419 | nothing for an empty list, else its last item, the lowest in any order the list descends in |
| SqueaksSlices.SqueaksSlice.OpenTimeline | frontend/src/features/squeaks/Timeline.js:30-38 | whatever was on screen or in flight, the next request starts at the first cursor and the page shows itself as loading |
| SqueaksSlices.SqueaksSlice.FetchTimelineFulfilled | frontend/src/features/squeaks/squeaksSlice.js:310-314 | a sorted list and a sorted page give a sorted list if and only if the page begins below the last item, whichever request it answers |
| SqueaksSlices.SqueaksSlice.SqueakChanged | frontend/src/features/squeaks/squeaksSlice.js:252-274 | the current squeak and all five lists show the squeak as it is now |
| SqueaksSlices.SqueaksSlice.SqueakDeleted | frontend/src/features/squeaks/squeaksSlice.js:276-288 | the current squeak and all five lists no longer show it |
| PageViews.StepKeepsOrder | frontend/src/features/squeaks/squeaksSlice.js:307-314 | with one request in flight or none: requests, answers, arrivals, removals, updates, clears and any change of the table keep list and page in flight descending, the page below the list |
| PageViews.StepKeepsShowing | frontend/src/features/squeaks/squeaksSlice.js:307-314 | and keep on screen, or in the page in flight, every row that has not left the table and lies above the frontier |
| PageRuns.SortedExactlyWhenPagesArriveBelow | frontend/src/features/squeaks/squeaksSlice.js:307-330 | with any number of requests in flight and pages opened at any time: the list has been strictly descending in every state so far if and only if every page that arrived began below the last item then on screen |
| PageRuns.ShowsAllExactlyWhen | frontend/src/features/squeaks/squeaksSlice.js:307-330 | for any rows that match throughout: the list has in every state so far been strictly descending and shown each of them that lies below the first cursor and not below its last item, if and only if every page that arrived began below the last item and left none of them in the gap above it |
| PageRuns.IdleOpensAreFresh | frontend/src/features/squeaks/Timeline.js:30-38 | if the page is opened only while nothing is in flight, no answer outlives its page |
| PageRuns.FreshListStaysDescending | frontend/src/features/squeaks/squeaksSlice.js:307-330 | if no answer outlives its page, the list is strictly descending in every state of every run and no hash appears twice |
| PageRuns.StableRowIsShownOnce | frontend/src/features/squeaks/Timeline.js:30-48 | if no answer outlives its page, a row that matches throughout, below the first cursor and not below the last item, is on screen at exactly one place |
| PageRuns.OpeningTwiceRepeatsRows | frontend/src/features/squeaks/Timeline.js:30-38 | a run in which the page is opened twice before the first answer arrives; it repeats a row unless the query selects none or the limit is zero |
| PageRuns.LateSecondPageUnsorts | frontend/src/features/squeaks/Timeline.js:30-48 | a run in which an old second page arrives before the new first one; the list is then out of order unless the query selects at most one page or the limit is zero |
| PageRuns.LateSecondPageMissesRows | frontend/src/features/squeaks/Timeline.js:30-48 | before the new first page arrives, that run shows a list in order that misses rows unless the query selects at most one page or the limit is zero |
| Summaries.SummaryIsSumOverSqueaks | squeaknode/db/squeak_db.py:1608-1651 | count and amount of the unfiltered summary are the per-squeak ones added up over the distinct squeak hashes |
| Summaries.PagesAgreeWithSummary | squeaknode/db/squeak_db.py:1440-1479 | enough pages of a fixed table count as the summary does if and only if no row is stamped later than the first request, and then the prices sum to it; the sum is null exactly for an empty table |
| Summaries.PaymentsSlice.OpenReceivedPayments | frontend/src/features/payments/ReceivedPayments.js:26-35 | whatever was on screen or in flight, the next request starts at the first cursor and the list shows itself as loading |
| Summaries.PaymentsSlice.OpenSentPayments | frontend/src/features/payments/SentPayments.js:26-35 | the same for sent payments |
| Summaries.PaymentsSlice.FetchReceivedPaymentsFulfilled | frontend/src/features/payments/paymentsSlice.js:126-130 | the page is appended, its prices add to the list's, and the flag is cleared |
| Summaries.PaymentsSlice.FetchSentPaymentsFulfilled | frontend/src/features/payments/paymentsSlice.js:118-122 | the page is appended, its prices add to the list's, and the flag is cleared |
| Ancestors.RoundIsAncestor | squeaknode/db/squeak_db.py:546-569 | each round of the recursion adds at most the one ancestor at its depth |
| Ancestors.AnswerIsThread | squeaknode/db/squeak_db.py:544-597 | the result, in any order by depth, is the thread that ends at the squeak, oldest first, each replying to its predecessor, the first to nothing stored; empty if the squeak is not stored |
| Ancestors.ThreadIsUnique | squeaknode/db/squeak_db.py:544-597 | a squeak has at most one thread |
| Ancestors.TerminatesExactlyWhenNoRepeats | squeaknode/db/squeak_db.py:559-569 | the recursion ends if and only if no stored hash repeats on the way up, and then within one round more than there are stored squeaks |
| Ancestors.TerminatesExactlyWhenThread | squeaknode/db/squeak_db.py:559-569 | the recursion ends if and only if there is a thread |
| Ancestors.EndedQueryHasAnswer | squeaknode/db/squeak_db.py:589-591 | every recursion that ends has a result |
| Ancestors.CommittedRepliesNeverRepeat | squeaknode/db/models.py:70-74 | if replies are younger than what they reply to, no hash repeats |
| PaymentSubscription.SegmentToNext | squeaknode/db/squeak_db.py:1593-1606 | moving up to the next row of the result adds that row and nothing else |
| PaymentSubscription.StepKeepsInv | squeaknode/node/received_payments_subscription_client.py:73-113 | every step of producer, consumer and table keeps the delivered rows an exact segment and the pill last |
| PaymentSubscription.NextPollSeesNewRow | squeaknode/node/received_payments_subscription_client.py:73-83 | a row that comes in between polls belongs to the result of the next one, whose last row it is |
| PaymentSubscription.ClearingKeepsRows | squeaknode/db/squeak_db.py:1584-1591 | settle indices can be cleared at any time, which zeroes them and changes nothing else |
| PaymentSubscription.DeliversExactSegment | squeaknode/node/received_payments_subscription_client.py:73-113 | in every state of every run, rows yielded followed by rows queued are exactly the payments above the initial index up to the last enqueued, in order, without gap or repeat |
| PaymentSubscription.PillMeansAllYielded | squeaknode/node/received_payments_subscription_client.py:90-107 | reading the pill means every enqueued row was yielded, the queue is empty and the producer has ended |
| PaymentSubscription.FinishedPollHasItsResult | squeaknode/node/received_payments_subscription_client.py:77-83 | when a poll has read its result to the end, exactly the rows above the initial index up to the last one its query saw have been enqueued |
| PaymentSubscription.FinishedPollIsCaughtUp | squeaknode/node/received_payments_subscription_client.py:77-83 | if no row has come in above the last one read, every row above the initial index has been enqueued |
| SubscriptionEnding.FullQueueBlocksStop | squeaknode/node/received_payments_subscription_client.py:73-92 | a producer at a full queue stays there, stopped or not, while the consumer reads nothing |
| SubscriptionEnding.NeverStuckExactlyWhenRoomForAll | squeaknode/node/received_payments_subscription_client.py:73-92 | in every run in which nobody reads and reading raises nothing, a stopped producer never gets stuck, if and only if the queue has no limit or room for the row in hand, the rows left in the result and the pill |
| SubscriptionEnding.EndsAfterStepsLeft | squeaknode/node/received_payments_subscription_client.py:73-92 | and then it has ended exactly when it has taken the number of steps that its position and the rows left give, and can take a step until it has |
| SubscriptionEnding.EndsWhileRead | squeaknode/node/received_payments_subscription_client.py:73-113 | a stopped subscription whose consumer reads on ends, whatever the queue's limit: producer and consumer take at most the steps that are left to them, exactly that many if reading raises nothing; until both have ended one of them has a step, and a producer that waits for room leaves an item to read |
| SubscriptionEnding.MayEndExactlyWhenRoom | squeaknode/node/received_payments_subscription_client.py:84-92 | a stopped producer may end without its consumer, if reading raises soon enough, if and only if the queue has room for the row it holds, if any, and for the pill |
| SubscriptionEnding.RoomForThePillIsNotEnough | squeaknode/node/received_payments_subscription_client.py:77-92 | for every queue with a limit, a run after which the stopped producer may end at once, and gets stuck for good on the rows left in its result if reading raises nothing |
| SubscriptionEnding.StoppedProducerHangs | squeaknode/node/received_payments_subscription_client.py:58-92 | for every queue with a limit, a run over one row more than it holds, with a consumer that reads nothing, after which the stopped producer can never end |
| PaymentSubscription.ReceivedPaymentsSubscriptionClient.EnqueueLatest | squeaknode/node/received_payments_subscription_client.py:77-83 | rows are queued in order, all of them exactly if they fit, else until the queue is full; the next poll starts after the last row put |
| PaymentSubscription.ReceivedPaymentsSubscriptionClient.GetReceivedPayments | squeaknode/node/received_payments_subscription_client.py:102-113 | yields exactly the items before the first pill and ends exactly if there is one; otherwise it has emptied the queue and waits |
| Messages.HexRoundTrip | squeaknode/admin/messages.py:117-147 | bytes written in hexadecimal read back as they were, and only empty bytes are written as empty |
| Messages.HexText | squeaknode/admin/messages.py:50-76 | each byte is written as two lower-case digits, the higher one first |
| Messages.HexCharacters | squeaknode/admin/messages.py:117-147 | digits of either case are read, and blanks skipped are those of ASCII |
| Messages.SqueakMessageSays | squeaknode/admin/messages.py:50-76 | the page is told whether a squeak is a reply, private and unlocked, and every field reads back from its text or number |
| Messages.PeerAddressRoundTrip | squeaknode/admin/messages.py:162-175 | every address whose port fits 32 bits makes the round trip |
| Messages.SqueakCursorSurvives | squeaknode/admin/messages.py:50-76 | written exactly if the height fits 32 bits and the times 64; height, time and hash then survive the round trip; the whole entry if and only if it is public and holds no empty or zero option |
| Messages.SentPaymentCursorSurvives | squeaknode/admin/messages.py:201-213 | the payment hash always survives, the creation time if and only if absent or positive, the whole record only without its key |
| Messages.ReceivedPaymentCursorSurvives | squeaknode/admin/messages.py:216-226 | the payment hash always survives, the creation time if and only if absent or positive, the whole record only with settle index zero |

## Left out

- Signatures, encryption and curve arithmetic: functions given as parameters, with the properties listed above.
- Lightning and Bitcoin clients: steps of the environment under the properties listed above; the payment point of a decoded request is a placeholder in the code, so its check stays off, as it is by default.
- `make_squeak` and `decrypt_private_squeak`: they combine calls whose effects are modelled in `SqueakStorage`.
- Sell price: the price of an offer is a parameter of the model.
- Autoincrement ids of offers and payments: rows are addressed by their unique hashes, except in `PaymentSubscription`, where the ids are what is polled.
- Downloads by several threads at once: modelled for the limits (`WriteLimits`), for key and content (`UnlockRace`) and for offers (`OfferRace`).
- Timelines.DownloadTimeline: asks one peer after the other, where the code asks up to fifty at once; what interleaving adds is in the three modules above.
- TwoNodes.BuyerStep: `Crash` stands for any error that ends a purchase; looking up a squeak and writing its key are one step, so a deletion falls before or after both.
- PeerDownloading.PeerDownloader.DownloadSecretKey: keeps one live offer for each squeak and peer for one downloader at a time; many at once are `OfferRace`.
- PageRuns.StableRowIsShownOnce: assumes that no answer outlives its page; the condition that is also necessary is in `PageRuns.ShowsAllExactlyWhen`. Both take a row's sort key as fixed while it exists, so they do not cover the query for liked squeaks, whose key is the time of the like; the modelled slice keeps no list of it.
- Queries with text search and the payment queries and summaries for one public key.
- Profiles, peers, images, sell price and accounts: single-statement updates; of a profile only public key, private key and following are kept.
- Event listeners, the Twitter forwarder, the web and admin servers, and everything of the web page but the squeak and payment slices.
- Schema migrations, connection retries and logging.
- Messages: the display copies of profiles, and the check that bytes are a public key when an entry is read back.
