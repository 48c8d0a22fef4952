# Verified model of the SovAgent SDK core

A Dafny model of the parts of the SDK that carry state over time or whose results other parts rely on, with
proofs of what they guarantee. `dafny verify dfyconfig.toml` checks the whole project.

Every component has the same shape. Methods and classes follow the source step by step - the same loops,
branches, constants and early returns, the same fields updated in place - and are proved against specification
functions. What the SDK promises is then proved about those functions: for every input, for every run, or for
every interleaving of concurrent callers. Concurrency is modelled as a state machine that may stop at every
`await`; its steps use the same specification functions as the methods.

Beside each component stands a file of laws that says what its answers are without the functions that compute them:
the exact condition for each outcome, and what the outcome then holds.

| file | component |
|---|---|
| `Prelude.dfy`, `SortingLaws.dfy`, `FifoSet.dfy` | shared datatypes, sums and map totals, stable sort, text operations; a bounded set with first-in-first-out eviction |
| `Vdxf.dfy`, `VdxfGate.dfy`, `VdxfLaws.dfy` | on-chain values, their byte sizes and job hashes; the per-type gate of the inbox |
| `InboxBatch.dfy`, `InboxLaws.dfy`, `InboxGuarantees.dfy`, `InboxFates.dfy` | one call of `acceptInboxBatch`, what it decides and guarantees, and for which batches every item has one fate |
| `InboxRuns.dfy`, `InboxDrain.dfy` | runs of batch cycles against a changing chain: frame, replay safety, draining |
| `InboxReplayLimits.dfy`, `InboxReplay.dfy` | what is broadcast again and again; the exact condition for replay safety, with the runs that break it |
| `IdentityUpdate.dfy`, `UpdateLaws.dfy`, `IdentityHistory.dfy`, `HistoryLaws.dfy` | the identity update (replace, sort, fund) and the history that recovers what it overwrote |
| `Payment.dfy`, `PaymentLaws.dfy`, `Rescaling.dfy`, `Wallet.dfy`, `WalletLaws.dfy`, `WalletValue.dfy` | coin selection and change; a target's rescaling in doubles; concurrent sends; value over chained sends |
| `CreditWatcher.dfy`, `CreditLaws.dfy` | automatic top-ups under a daily cap |
| `JobPolling.dfy`, `PollingLaws.dfy` | the job poll, its bounded retry and its memory of seen jobs |
| `Onboarding.dfy`, `OnboardingLaws.dfy` | the resumable onboarding stages |
| `ServiceCodec.dfy`, `VdxfProfile.dfy`, `ProfileLaws.dfy`, `SatoshiNumbers.dfy` | publishing services and profiles and reading them back from the aggregated map; a number codec that meets their hypothesis |
| `SigningMessages.dfy`, `Multisig.dfy` | signed message formats and the challenge guard; counting signers |
| `ScannerDecoders.dfy`, `ScannerLaws.dfy`, `MorseDecoder.dfy`, `MorseLaws.dfy` | the scanner's decoders |

## Where the code does less than it says

Each of these promises fails for some inputs. A lemma gives them, and another says for exactly which inputs the promise holds.

- **Replay safety.** `src/agent.ts:1684-1712` skips what is already on-chain, so that an item whose ack failed is not
  broadcast again. Over all runs that serve a set of pending items, no item is broadcast twice if and only if no
  item's additions change with time and no items displace each other in a circle (`ReplaySafetyExactly`). Two cases:
  - A job record that the gate makes up itself (`src/inbox/vdxf-gate.ts:118-145`) carries the second it was built in
    and is never recognised; while its ack fails, every cycle sends it again (`RecordRunsForever` builds the run).
    Where no two items share a key, having payloads is the exact condition (`DisjointPoolsExactly`).
  - Of two items for one key the one not on-chain is sent and displaces the other, again and again
    (`RivalsRunForever` builds the run). Two items are safe exactly if not each of them displaces the other
    (`TwoItemsExactly`); for reviews that is a matter of job hashes (`ReviewsDisplace`).
- **Repeated ids in one batch.** Bisection goes by id, so an item handed in twice can be put off and rejected at once
  (`RepeatedIdHasSeveralFates`); every item has one fate exactly if no id is repeated
  among the items of supported types (`OneFateExactly`).
- **The credit cap.** `src/buyer/credit-watcher.ts:332-336` returns without recording a payment whose report cannot be
  signed. What leaves the wallet is recorded spend, spend in flight and such payments (`PaidSpendIsCappedUpToLostRecords`),
  so it exceeds the cap at most by the latter; over all runs the cap binds real payments if and only if a single
  top-up already exceeds it (`CapBindsPaymentsOnlyIfNoneIsAllowed`).
- **Services registered again.** A process that dies between the registrations and their mark registers every service
  again when it resumes, and one failed service does the same to those before it. Over all runs handed the same
  services none is registered by two runs exactly if there are none (`ServicesRepeatExactly`); once the mark is
  persisted nothing is (`MarkedServicesStay`).
- **History without a job hash.** A job is never reported twice exactly if its hash is not empty
  (`DeduplicationExactly`); under the empty hash every distinct entry is (`EmptyJobHashIsNotDeduplicated`).
- **Two readers of a job hash.** The batch's duplicate check and the history reader differ on a value exactly if
  its wrapped payload is neither a message nor a string and names another job hash than the wrapper (`JobHashDecodersAgree`).
- **Publishing a profile.** A decoder that meets an older services value that is no JSON, a value cut off on-chain for
  one, throws and returns no profile at all, however well-formed (`BrokenServicesHideProfile`). `ProfileRoundTrip`
  says when decoding gives every written profile field. A dispute policy without a profile and a markup out of range are
  not written in the first place (`DisputeAloneIsLost`, `MarkupOutOfRangeIsLost`); `PublicationRoundTrip` gives the
  exact condition under which a publication comes back as it was given, services included.
- **Publishing services.** The service type, endpoint, model pricing and rate limits are never written
  (`src/onboarding/vdxf.ts:300-331`) and so are lost (`EndpointIsLost`, `EndpointFieldsAreLost`). A service with accepted
  currencies but no price and currency of its own reads as priced in the first of them (`AcceptedTakenForPrice`).
  `ServiceRoundTrip` and `ServicesRoundTrip` give the exact condition for a faithful round trip.
- **Rescaling a target.** The payment builders divide the target in satoshis by the coin scale and `selectUtxos` multiplies
  it back. In doubles the first target that comes back too large is 33554432.00000019 coins (`FirstLostTarget`); all targets
  up to a limit come back if and only if the limit is below it (`RescalingExactly`).
- **Selecting nobody.** A bounty selection of no applicant and one of a single empty id are signed alike
  (`EmptySelectionIsAmbiguous`); `MessagesAreUnambiguous` says exactly which messages are.
- **An infinite minimum of signers.** `src/crypto/canonical.ts:394` reads it as one signer,
  `src/identity/witness-verify.ts:212-215` as one that is never reached; the verifiers agree exactly if the minimum is
  not infinite or there is no address to sign (`VerifiersAgreeExactly`).

## Model

| member | source | states |
|---|---|---|
| VdxfGate.BuildInboxVdxfAdditions | src/inbox/vdxf-gate.ts:99-145 | what one item may write: its payload's non-null values under keys its own type allows, a synthesized record for a job record without payload, otherwise which error |
| VdxfGate.GateIsTight | src/inbox/vdxf-gate.ts:40-145 | a gated payload has exactly the allowed non-null keys, values untouched; without payload only a job record passes |
| VdxfLaws.GateExactly | src/inbox/vdxf-gate.ts:40-145 | for each type and payload what is added or which refusal it is: the type's own key with its non-null value as an array, a made-up record for a job record without payload |
| VdxfLaws.SynthesizedRecordExactly | src/inbox/vdxf-gate.ts:118-145 | each field of a made-up record: the second, and the item's sender, job hash, amount, currency and completion under their own names where they are given, no other |
| VdxfLaws.MadeUpIsRead | src/inbox/vdxf-gate.ts:118-145 | what the gate makes up is one wrapped value that the history reader reads as the record |
| VdxfLaws.WeightOfValues | src/onboarding/vdxf.ts:197-216 | a wrapped text weighs its bytes, hex half its digits, other text its bytes, all else its JSON |
| VdxfLaws.WeightOfWrappedHex | src/onboarding/vdxf.ts:197-216 | a wrapped hex text weighs half its digits, rounded up, and null what an empty text does |
| VdxfLaws.SizeOfOneKey | src/inbox/vdxf-gate.ts:148-160 | additions under one key weigh the sum of their values |
| VdxfGate.AdditionsByteSize | src/inbox/vdxf-gate.ts:148-160 | the loop computes the total over all keys and values, independent of visiting order |
| VdxfGate.SizeOfDisjointUnion | src/inbox/vdxf-gate.ts:148-160 | sizes of additions with disjoint keys add up, which makes the running total of the batch the size of the merged map |
| Vdxf.JobHashDecodersAgree | src/inbox/vdxf-gate.ts:219-245 | the batch and the history reader read different job hashes from a value if and only if its wrapped payload is neither a message nor a string and names another one than the wrapper around it |
| VdxfLaws.StoredRecordIsRead | src/identity/history.ts:118-160 | a record stored as an object, as wrapped JSON text or as hex is read as it was, and both readers find its job |
| VdxfLaws.OnlyObjectsAreRecords | src/identity/history.ts:135-160 | no other value than an object is a record, nor a text that holds another value or no JSON |
| InboxBatch.AcceptInboxBatch | src/agent.ts:1613-1826 | the five phases as loops and early returns produce the outcome of the specification, error by error |
| InboxBatch.GatePhase | src/agent.ts:1626-1663 | phase 1: fetch failures are deferred, no longer pending items done, type mismatches, gate errors and oversized values rejected, the rest are candidates in order |
| InboxBatch.MergePhase | src/agent.ts:1676-1712 | phase 3: items found on-chain are set aside, key collisions and budget overruns deferred, the rest merged in order |
| InboxBatch.BisectPhase | src/agent.ts:1714-1790 | solo builds split the merged items into survivors with their rebuilt map and blamed ones |
| InboxBatch.WritePlan | src/agent.ts:1714-1800 | what is broadcast for whom, who is rejected or put off, and when the call fails, including the control build |
| InboxBatch.AckPhase | src/agent.ts:1802-1826 | acks are isolated: each written id is acked or failed by its own reply |
| InboxLaws.GateReportsExactly | src/agent.ts:1626-1663 | who is rejected for which reason, deferred or already done, item by item, and nobody else |
| InboxLaws.CandidatesInOrder | src/agent.ts:1626-1663 | candidates stand in the order their items were handed in |
| InboxLaws.EarlyReturnsExactly | src/agent.ts:1613-1680 | the outcomes of a call that never chooses: nothing handed in, not ready, no gated item, no identity, no previous output |
| InboxLaws.BatchExactly | src/agent.ts:1676-1826 | for distinct ids: the call fails for want of coins or height, because the build fails without additions or only for all together, or at its broadcast; otherwise it sends exactly the greedy choice, less those the build blames, and its result says so: union, txid, expiry, written and acked ids |
| InboxLaws.FatesExactly | src/agent.ts:1613-1826 | each rejection and deferral of a normal return has its cause and each cause its entry: a key collision shares a key with a candidate chosen before it, a size deferral exceeds the budget beside those |
| InboxLaws.GreedyExists | src/agent.ts:1684-1712 | with distinct ids there is a greedy choice: in order, each candidate that needs a write, shares no key with those chosen before and fits beside them |
| InboxLaws.PresentExactly | src/agent.ts:1684-1700 | additions need no write if and only if the chain shows each of their values, as array or single value, or under the review key a review of the same non-empty job hash |
| InboxLaws.WholeBatchIsCarried | src/agent.ts:1676-1800 | where nothing else fails, gated items that need a write, share no key and fit the budget together are all carried |
| InboxGuarantees.EveryItemHasOneFate | src/agent.ts:1613-1826 | on every normal return each item is in exactly one of written, rejected, deferred, already done, and nothing else is; written splits into acked and ack-failed |
| InboxGuarantees.OneDisjointBroadcast | src/agent.ts:1676-1800 | at most one broadcast; it is the disjoint union of the additions of exactly the freshly written items, buildable and within the budget, also after bisection |
| InboxGuarantees.WrittenItemsAreGated | src/agent.ts:1626-1712 | every written item passed its own gate; sent ones were not on-chain, the others were |
| InboxGuarantees.CandidatesAreTheGated | src/agent.ts:1629-1662 | the candidates are exactly the batch's items that pass their gate |
| InboxGuarantees.UnionHoldsEach | src/agent.ts:1676-1712 | the merged map holds every chosen item's values untouched and nothing else |
| InboxGuarantees.BroadcastKeysAreAllowed | src/inbox/vdxf-gate.ts:40-145 | each key and value of any broadcast, repeated ids or not, was contributed by an item that passed its gate and whose own type allows the key |
| InboxGuarantees.BlameIsFair | src/agent.ts:1714-1790 | an item is rejected at build time only if its solo build fails while the build without additions succeeds |
| InboxGuarantees.BatchMakesProgress | src/agent.ts:1676-1800 | when some gated item fits the budget, a normal return has written or rejected something |
| InboxRuns.RunsTouchInboxKeysOnly | src/identity/update.ts:108-129 | over any run of batches, keys outside review record, review attestation and job record keep their values; the removal instruction can only disappear |
| InboxRuns.EachItemIsBroadcastOnce | src/agent.ts:1684-1712 | with disjoint keys and additions that do not change with time, any number of cycles broadcasts each item at most once, whatever the acks do |
| InboxRuns.CarriedItemsStand | src/identity/update.ts:126-129 | once carried, an item's values stay on-chain for the rest of the run |
| InboxReplayLimits.SynthesizedRecordIsSentEveryCycle | src/inbox/vdxf-gate.ts:118-145 | in every run of healthy cycles handed a synthesized job record that is on-chain, it is broadcast again each time the clock has moved |
| InboxReplayLimits.RivalsAlternateForever | src/agent.ts:1684-1712 | in every run of healthy cycles handed two items of one type that do not recognise each other, they are sent alternately |
| InboxReplay.ReplaySafetyExactly | src/agent.ts:1684-1712 | for any pool of items: over all initial maps and runs that serve it no item is broadcast twice, if and only if no item's additions change with time and no circle of items displaces one another |
| InboxReplay.SteadyExactly | src/inbox/vdxf-gate.ts:118-145 | where made-up records fit, additions change with time if and only if some job record has no payload |
| InboxReplay.DisjointPoolsExactly | src/agent.ts:1684-1712 | where no two items share a key, no item is broadcast twice over all runs if and only if none is a job record without payload |
| InboxReplay.TwoItemsExactly | src/agent.ts:1684-1712 | two steady items of one key are safe over all runs if and only if not both displace each other |
| InboxReplay.ReviewsDisplace | src/agent.ts:1690-1706 | one review displaces another exactly if their values differ and the other's job is not found among its values |
| InboxReplay.RecordRunsForever | src/inbox/vdxf-gate.ts:118-145 | builds, from an empty map, a run of any length that broadcasts a made-up job record in every cycle |
| InboxReplay.RivalsRunForever | src/agent.ts:1684-1712 | builds, from an empty map, a run of any length that broadcasts two items in turn that displace each other |
| InboxFates.OneFateExactly | src/agent.ts:1613-1826 | for every batch: each item has one fate whatever the surroundings, if and only if no id is repeated among the items of supported types |
| InboxFates.RepeatedIdHasSeveralFates | src/agent.ts:1738-1790 | where only an update without additions builds, an id handed in k times with supported types gets exactly k - 1 fates too many |
| InboxDrain.CycleShrinks | src/agent.ts:1613-1826 | a cycle with succeeding acks leaves strictly fewer items when something fits, and never more |
| InboxDrain.InboxDrains | src/agent.ts:1613-1826 | over any run with succeeding acks, cycles that had work plus items left never exceed the items at the start |
| InboxDrain.DrainedWithinAsManyCyclesAsItems | src/agent.ts:1613-1826 | among one cycle more than there are items, some cycle finds nothing left that fits |
| IdentityUpdate.BuildContentMultimap | src/identity/update.ts:108-154 | the built key sequence is strictly ascending by hash160 and denotes existing minus the removal key, overridden by the additions, whatever order the keys come in |
| IdentityUpdate.LayoutIsUnique | src/identity/update.ts:131-154 | equal maps have one canonical layout |
| IdentityUpdate.UpdateFrame | src/identity/update.ts:108-129 | written keys are replaced, all others kept, the removal instruction dropped |
| IdentityUpdate.BuildIdentityUpdateTx | src/identity/update.ts:80-258 | the checks in their order, the content in canonical layout, the coins chosen and the change |
| UpdateLaws.UpdateExactly | src/identity/update.ts:80-258 | an update is built if and only if there are a previous output and coins, all values are within 5000 bytes, the content serializes, the key is a primary address, the minimum lies in 1 to their number and the own coins reach the fee; the error is the first of these that fails; it holds the updated content, own coins, and the rest above the fee as change |
| UpdateLaws.ClearingDropsAll | src/identity/update.ts:108-129 | with clearing asked for, the content is what is written and nothing else |
| IdentityUpdate.UpdatePaysExactlyItsFee | src/identity/update.ts:156-230 | inputs equal change plus the fee and are the agent's own positive coins, each as often as offered |
| IdentityUpdate.EnvironmentalFailureBlocksEveryUpdate | src/identity/update.ts:80-200 | if the update without additions fails for any reason but serialization, no update builds: the batch's control build is sound |
| IdentityHistory.ExtractVdxfHistory | src/identity/history.ts:59-103 | the walk over height-ordered snapshots that skips unchanged values |
| IdentityHistory.DecodeReviewHistory | src/identity/history.ts:170-196 | decoding the walk, one row per non-empty job hash |
| HistoryLaws.ValuesExactly | src/identity/history.ts:59-103 | entry by entry: the values of each snapshot that shows others than the last before it that shows any, at its height and in order, and nothing else |
| HistoryLaws.RowsExactly | src/identity/history.ts:170-196 | row by row: one for each entry that decodes unless an earlier one names its non-empty job hash, with its height, hash and record |
| HistoryLaws.ValuesAtExactly | src/identity/history.ts:80-90 | what one snapshot shows under a key: nothing without map, key or value, an array, or a single value as one |
| IdentityHistory.HistoryRecoversEveryReview | src/identity/history.ts:59-196 | for any run of updates at increasing heights and any arrival order of the snapshots, each review job ever written is reported exactly once, at the height of its first write, rows ascending |
| IdentityHistory.HistoryReportsEachJobOnce | src/identity/history.ts:170-196 | for any snapshots at all, a job with a non-empty hash has exactly one row if some snapshot shows it, taken from the first that does, and none otherwise |
| IdentityHistory.ArrivalOrderIsIrrelevant | src/identity/history.ts:59-75 | with distinct heights the history is the same for every order of the snapshots |
| SortingLaws.SortIsStable | src/identity/history.ts:66-75 | sorting keeps the order of elements that tie, such as snapshots without a height |
| IdentityHistory.HistoryAscends | src/identity/history.ts:59-103 | rows come in ascending height order, unknown heights last |
| IdentityHistory.EmptyJobHashIsNotDeduplicated | src/identity/history.ts:170-196 | under the empty job hash every distinct entry is reported |
| IdentityHistory.EmptyJobHashReportedTwice | src/identity/history.ts:170-196 | two different records with the empty job hash give two rows |
| IdentityHistory.DeduplicationExactly | src/identity/history.ts:170-196 | over all snapshots a job hash has at most one row if and only if it is not empty |
| Payment.SelectUtxos | src/tx/payment.ts:102-122 | the accumulating loop with break is the greedy selection over coins sorted by value |
| Payment.GreedyIsOptimal | src/tx/payment.ts:102-122 | no smaller set of the given coins reaches the target, exactly when the target is positive |
| Payment.GreedyFailsOnlyWhenHopeless | src/tx/payment.ts:102-122 | for non-negative coins selection fails if and only if no subset reaches the target |
| Rescaling.RescalingExactly | src/tx/payment.ts:102-165 | with quotient and product rounded to doubles, every target up to a limit comes back from division by the coin scale, multiplication and rounding, if and only if the limit is below 3355443200000019 satoshis |
| Rescaling.FirstLostTarget | src/tx/payment.ts:102-165 | that target comes back one satoshi too large |
| Payment.BuildPayment | src/tx/payment.ts:132-240 | amount checks, selection and the change rule of a single payment |
| Payment.BuildMultiPayment | src/tx/payment.ts:246-330 | the same for many outputs: refused if any amount is not positive |
| Payment.ValueIsConserved | src/tx/payment.ts:150-186 | the fee, inputs less payments and change, lies between the configured one and 1000 satoshis more; change only above the dust limit and then without any excess; inputs are offered coins, each as often as offered |
| Payment.SelectedAreOffered | src/tx/payment.ts:102-122 | selected coins are offered ones, each as often as offered, and reach the target |
| PaymentLaws.SelectionExactly | src/tx/payment.ts:102-122 | selection succeeds if and only if some non-empty part of the coins is worth the target, whatever their signs; the shortfall reports the value of all |
| PaymentLaws.LargestAreSelected | src/tx/payment.ts:102-122 | no coin left is worth more than one selected |
| PaymentLaws.PaymentExactly | src/tx/payment.ts:132-203 | a payment is refused for a non-positive or too large amount; otherwise it is made if and only if some coins are worth it and the fee, and then pays the recipient the amount to the nearest satoshi and the miners the fee or up to 1000 satoshis more |
| PaymentLaws.MultiPaymentExactly | src/tx/payment.ts:246-330 | the same for many outputs, each recipient getting its own amount |
| Wallet.Coins.MergeUtxos | src/agent.ts:2601-2616 | prunes pending change that is spent or confirmed and offers every unspent outpoint once |
| Wallet.Coins.MarkSpent | src/agent.ts:2540-2547 | inputs are remembered in order; a single send evicts the oldest beyond the cap |
| Wallet.Coins.RecordChange | src/agent.ts:2549-2558 | change is remembered under its real txid, a single send evicting the oldest |
| Wallet.Coins.Stop | src/agent.ts:1045-1063 | forgets spent outpoints and pending change |
| Wallet.OfferIsClean | src/agent.ts:2601-2616 | the offer holds each unspent listed outpoint exactly once and no spent one |
| WalletLaws.FetchOffersExactly | src/agent.ts:2588-2616 | a fetch offers each unspent coin of the source that is listed with a value or waits unconfirmed, once, and nothing else, and prunes spent and confirmed change |
| WalletLaws.BuildMarksExactly | src/agent.ts:2485-2547 | a send builds if and only if the offered coins are worth its payments and fee; it then marks each input, a single send forgetting the oldest marks beyond 10000 |
| WalletLaws.BroadcastRemembersExactly | src/agent.ts:2549-2558 | a successful broadcast remembers the output of its transaction that pays the change, under the real txid, never a recipient's; a failed one or one without change remembers nothing |
| WalletLaws.FailureKeepsMarks | src/agent.ts:2588-2653 | a failed send gives no mark back |
| Wallet.NoInputReuse | src/agent.ts:2588-2653 | under every interleaving of sends, failed ones included: one send at a time between fetch and end, no duplicate inputs, and an outpoint is marked again only after 10000 newer ones |
| FifoSet.TailAfterInsert | src/agent.ts:2540-2547 | the bounded set is always the newest part of its insertion log, at least full once anything was evicted |
| FifoSet.InsertsStaySpaced | src/agent.ts:2540-2547 | inserting only absent values keeps reinsertions at least the cap apart, counted in different values |
| WalletValue.OfferIsUnspentValue | src/agent.ts:2601-2616 | the offered value is the value of the unspent outputs, confirmed change counted once |
| WalletValue.ChainedSendsConserveValue | src/agent.ts:2441-2653 | over any run of sends without eviction, the value offered next is the initial value minus payments, fees and the inputs of failed broadcasts |
| WalletValue.SendIsThreeSteps | src/agent.ts:2485-2560 | the book-keeping of one send is what fetch, build and broadcast do in the concurrent wallet |
| CreditWatching.CreditWatcher.MaybeTopUp | src/buyer/credit-watcher.ts:277-310 | the guard, debounce and cap decision before the first await |
| CreditWatching.CreditWatcher.OnCreditLow | src/buyer/credit-watcher.ts:236-275 | signals of other sellers and non-numbers do nothing, balances at the threshold neither |
| CreditWatching.CreditWatcher.RecordSpend | src/buyer/credit-watcher.ts:383-395 | appends a spend and prunes the ledger to the window |
| CreditWatching.CreditWatcher.Finish | src/buyer/credit-watcher.ts:310-372 | what each ending of a top-up records, and that the guard is released |
| CreditWatching.PruningLosesNothing | src/buyer/credit-watcher.ts:377-395 | the pruned ledger gives the same window total as the full history |
| CreditLaws.DecisionExactly | src/buyer/credit-watcher.ts:277-310 | in every reachable state, over the full log: rate-limited if and only if a top-up is in flight or one was recorded too recently; refused by the cap if and only if neither holds and the last 24 hours leave no room; claimed otherwise |
| CreditLaws.TopUpExactly | src/buyer/credit-watcher.ts:277-310 | a low signal puts a new top-up in flight under exactly that condition, and changes nothing else |
| CreditLaws.AnswersExactly | src/buyer/credit-watcher.ts:310-372 | what each answer pays, records or loses, and at which await the top-up then is |
| CreditWatching.RecordedSpendIsCapped | src/buyer/credit-watcher.ts:277-395 | under every interleaving: at most one top-up in flight, starts the interval apart, and in every 24-hour window recorded plus in-flight spend within the cap |
| CreditWatching.PaidSpendIsCappedUpToLostRecords | src/buyer/credit-watcher.ts:300-372 | in every window what left the wallet is recorded spend, spend in flight and payments whose report could not be signed; it exceeds the cap at most by the latter |
| CreditWatching.CapBindsPaymentsOnlyIfNoneIsAllowed | src/buyer/credit-watcher.ts:332-336 | over all runs the cap bounds real payments if and only if a single top-up exceeds it |
| JobPolling.JobPoller.Enter | src/agent.ts:1907-1909 | the re-entrancy guard |
| JobPolling.JobPoller.RecordAcceptFailure | src/jobs/accept-retry.ts:48-57 | one more attempt, and whether to give up |
| JobPolling.Prune | src/jobs/accept-retry.ts:76-85 | keeps exactly the counters of pending jobs and returns how many it dropped |
| JobPolling.JobPoller.HandleJob | src/agent.ts:1936-2013 | what each decision and answer does to the seen set and the counters |
| JobPolling.VerdictDecidesJob | src/agent.ts:1936-2013 | a verdict touches its own job only; exactly which verdicts make it seen, count one more attempt or leave it alone |
| JobPolling.JobPoller.FinishPoll | src/agent.ts:2014-2032 | eviction of the oldest seen jobs, pruning by the full response, release of the guard |
| JobPolling.PollingIsBounded | src/agent.ts:1907-2033 | under every interleaving of polls, stops and starts: one poll at a time, counters in 1..4 and of unseen jobs only, between polls only of the last response's jobs, seen ids marked again only after 10000 newer ones |
| PollingLaws.EveryJobIsHandled | src/agent.ts:1932-2013 | a poll that is not stopped puts every job within its limit to the handler that has an id and was not seen, also one with failed accepts, and no other |
| PollingLaws.PollEndsExactly | src/agent.ts:1926-2033 | a poll ends if and only if the agent stopped or its limit or response is through; then exactly the counters of listed jobs stay, unchanged, and the newest 10000 seen ids |
| PollingLaws.CallExactly | src/agent.ts:1907-1909 | a call begins a poll if and only if there is a handler and no poll is under way |
| PollingLaws.FetchExactly | src/agent.ts:1911-1930 | a response is looked at from its start, a failed fetch ends the poll |
| JobPolling.FailedAcceptsAreBounded | src/jobs/accept-retry.ts:33-57 | while finished polls keep listing a job and it is not evicted, it fails at most 5 accepts less those already counted; five failures make it seen, and a seen job fails none |
| JobPolling.SeenJobsRest | src/agent.ts:1932-1935 | a job that was marked as seen is put to the handler again only after 10000 different newer ones |
| Onboarding.Finalizer.FinalizeOnboarding | src/onboarding/finalize.ts:453-539 | the chain of stage checks runs the stages of the specification, in memory, on disk and in effects |
| Onboarding.Finalizer.RegisterProfile | src/onboarding/finalize.ts:493-522 | registration with one retry after re-authentication, where an existing registration is no failure |
| Onboarding.ResumedRunsGoForward | src/onboarding/finalize.ts:216-539 | over any sequence of runs failing or dying anywhere the persisted stage never goes back, exactly the stages up to it were persisted, each after its work was done or deferred, and no work for a persisted stage is repeated |
| Onboarding.CleanRunsFinish | src/onboarding/finalize.ts:453-539 | a run without failures ends ready from every stage; a run from ready does nothing |
| OnboardingLaws.RegistrationExactly | src/onboarding/finalize.ts:493-522 | which answers of the platform let the profile stage pass: accepted at once, or after an expired challenge accepted or already there on the retry, or already there when re-authenticating |
| OnboardingLaws.ReachesExactly | src/onboarding/finalize.ts:453-539 | a run reaches a stage if and only if it goes well and persists at every stage up to it |
| OnboardingLaws.EventsExactly | src/onboarding/finalize.ts:453-539 | what a run calls, completes, defers, registers and persists: towards exactly the stages it arrives at what there is to do, services up to the first that fails |
| OnboardingLaws.UnreadableStartsOver | src/onboarding/finalize.ts:216-260 | a run from a missing or unreadable state file does what a run from the start does |
| Onboarding.ServicesRepeatExactly | src/onboarding/finalize.ts:525-531 | over all sequences of runs handed the same services, none is registered by two of them if and only if there are no services |
| Onboarding.MarkedServicesStay | src/onboarding/finalize.ts:524-531 | once the services stage is persisted, no later run registers any |
| ServiceCodec.DecodeServicesArray | src/onboarding/vdxf.ts:497-558 | the decoding loop, with its limits, skipped elements and exceptions |
| ProfileLaws.ServicesThrowExactly | src/onboarding/vdxf.ts:497-558 | decoding throws if and only if the value is a text but no JSON, or one of the first hundred elements breaks |
| ProfileLaws.ElementExactly | src/onboarding/vdxf.ts:503-556 | an element breaks if and only if it is null, or is named and has null among its first fifty prices or a policy or breakdown text that is no JSON; otherwise it is a service if and only if it is named |
| ServiceCodec.ServiceReadsBack | src/onboarding/vdxf.ts:300-331 | what any serialized service, well-formed or not, decodes to, for a number codec that reads back the service's own numbers |
| ServiceCodec.ServiceRoundTrip | src/onboarding/vdxf.ts:300-558 | one service decodes to itself if and only if it is faithful: named, without service type, endpoint, model pricing and rate limits, price and currency both or neither, accepted currencies only beside a price and at most 49, numbers in range |
| ServiceCodec.EndpointFieldsAreLost | src/onboarding/vdxf.ts:300-558 | every service reads as if its service type, endpoint, model pricing and rate limits were not given, so one that gives any never comes back |
| ServiceCodec.EndpointIsLost | src/onboarding/vdxf.ts:300-331 | a named API endpoint is read without its type and its URL |
| ServiceCodec.ServicesRoundTrip | src/onboarding/vdxf.ts:300-558 | an array decodes to itself if and only if it has at most 100 services, all faithful |
| ServiceCodec.AcceptedTakenForPrice | src/onboarding/vdxf.ts:300-331 | accepted currencies without a price: the first is read as the price and lost from the list |
| VdxfProfile.BuildAgentContentMultimap | src/onboarding/vdxf.ts:333-424 | the builder writes, under each key whose field is given, one wrapped value in that key's text form |
| VdxfProfile.MergeContentMultimap | src/onboarding/vdxf.ts:925-944 | the merge holds all keys of both maps, older values before newer ones |
| VdxfProfile.DecodeContentMultimap | src/onboarding/vdxf.ts:572-670 | the decoder's sequence of reads gives one field per readable key, or the legacy route, or the exception of the services |
| VdxfProfile.ProfileRoundTrip | src/onboarding/vdxf.ts:333-670 | after a publication onto any older map, the decoder returns every profile field and the dispute policy as written if and only if the profile is well-formed and, where no services are written, the older services decode |
| VdxfProfile.PublicationRoundTrip | src/onboarding/vdxf.ts:333-670 | the decoder returns everything the publication was given, services included, if and only if the profile is well-formed with a markup in range, a dispute policy comes with a profile or is on-chain already, and the services are faithful or, where there are none, the older ones decode |
| VdxfProfile.DecodesExactly | src/onboarding/vdxf.ts:572-670 | after a publication the decoder returns normally if and only if services are written or the older ones decode, and then each field is the one of its key |
| VdxfProfile.BrokenServicesHideProfile | src/onboarding/vdxf.ts:497-499 | over an older services value that does not parse, a profile published without services is not read: the decoder throws |
| VdxfProfile.DisputeAloneIsLost | src/onboarding/vdxf.ts:350-421 | a dispute policy published onto an empty map with services but no profile is not read back |
| VdxfProfile.MarkupOutOfRangeIsLost | src/onboarding/vdxf.ts:394-397 | a markup outside 1 to 50 published onto an empty map is not read back |
| VdxfProfile.EachFieldUnderItsKey | src/onboarding/vdxf.ts:343-418 | the built map holds each profile field under its own key, under the condition that it is given, and no other key |
| VdxfProfile.PublishedFieldsRead | src/onboarding/vdxf.ts:333-670 | for a well-formed profile, decoding the built map appended to any older one gives under every key the profile's own field, and the older value where it has none; it throws only if no services are written and the older ones do not decode |
| VdxfProfile.UnwrittenFieldsStay | src/onboarding/vdxf.ts:452-462 | under a key that was not written the older value is read |
| ProfileLaws.LegacyExactly | src/onboarding/vdxf.ts:443-450 | a map takes the legacy route if and only if it holds the legacy container and no agent key at all |
| ProfileLaws.DecodedFieldsAreSane | src/onboarding/vdxf.ts:572-670 | whoever wrote the map, the decoder gives no payout address that is none, no markup out of range, no models that are no list, no block that is no container, and nothing under another key |
| ProfileLaws.DecodedServicesAreSane | src/onboarding/vdxf.ts:497-558 | whoever wrote the value, at most 100 services come out, named, with prices and windows in range and at most 49 accepted currencies, each with a price |
| ProfileLaws.FormsReadAlike | src/onboarding/vdxf.ts:520-556 | flags as text and objects as JSON text read like the native forms |
| ProfileLaws.PriceUnderEitherName | src/onboarding/vdxf.ts:512-520 | a price stands under amount or price, and the amount counts |
| ProfileLaws.MergeKeepsBoth | src/onboarding/vdxf.ts:925-944 | the merge keeps every older value in its place and appends the new ones in theirs |
| ProfileLaws.WrappedValuesAreRead | src/onboarding/vdxf.ts:149-163 | a wrapped value reads as its message, or as the JSON its hex spells, or as the text itself |
| VdxfProfile.PublicationReads | src/onboarding/vdxf.ts:443-450 | after a publication the map reads flat however many legacy containers it holds; services come back exactly if faithful, or are the older ones if none were written |
| SigningMessages.BuildIsJoined | src/signing/messages.ts:42-182 | each of the ten templates is its head and its labelled fields between pipes |
| SigningMessages.BuildersNeverCollide | src/signing/messages.ts:42-182 | no two different builders print the same string for any fields |
| SigningMessages.MessagesAreUnambiguous | src/signing/messages.ts:42-182 | messages whose fields, all but one, are free of separators print alike if and only if they say the same, job hashes to 16 characters where truncated |
| SigningMessages.EmptySelectionIsAmbiguous | src/signing/messages.ts:124-126 | selecting nobody and selecting one empty id print alike |
| SigningMessages.DisputeAnswersBind16 | src/signing/messages.ts:64-90 | a dispute answer and a rework acceptance bind the first sixteen characters of the job hash and no more |
| SigningMessages.GuardRefusesEveryMessage | src/signing/messages.ts:138-149 | the guard refuses every builder's output for all fields |
| SigningMessages.GuardPassesChallengeHashes | src/auth/challenge-hash.ts:7-11 | the guard passes every 64-digit hex challenge |
| SigningMessages.GuardExactly | src/signing/messages.ts:138-149 | of ASCII texts the guard refuses exactly those that start, white space aside, with j41- in any case, action characters and a pipe |
| SigningMessages.GuardRefusesFormatCharacters | src/signing/messages.ts:138-141 | a text with a zero-width or format character is refused for it |
| Multisig.VerifyCanonicalSignatures | src/crypto/canonical.ts:364-413 | with its early exit it accepts if and only if the distinct addresses some signature matches reach the threshold |
| Multisig.VerifyWitness | src/identity/witness-verify.ts:166-255 | verified if and only if the blob is well-formed and the distinct signers reach the threshold, an infinite one never; otherwise the reason in the order of the checks |
| Multisig.AcceptanceExactly | src/crypto/canonical.ts:392-413 | for each minimum how many distinct signers either verifier asks for |
| Multisig.MalformedExactly | src/identity/witness-verify.ts:166-200 | a blob is looked at if and only if algorithm, version, signatures and height are right, and which reason a wrong one gets |
| Multisig.VerifiersAgreeExactly | src/identity/witness-verify.ts:212-250 | both verifiers accept the same signatures of an identity if and only if its minimum is not infinite or it has no address |
| Multisig.AcceptanceIsMonotone | src/crypto/canonical.ts:392-413 | acceptance ignores order and repetition and survives added signatures and addresses |
| Multisig.SignersBoundThreshold | src/crypto/canonical.ts:392-396 | one key counts once however often it signs |
| ScannerDecoders.DecodeBase32 | src/safety/scanner/regex.ts:657-671 | the decoder's loops compute full bytes of the upper-cased letters' bits and decode them as UTF-8, or refuse a foreign character |
| ScannerDecoders.Base32RoundTrip | src/safety/scanner/regex.ts:657-671 | decoding undoes the encoding of section 6 of RFC 4648 for every byte string, with its letters in any case, up to the final UTF-8 decoding |
| ScannerLaws.AlphabetExactly | src/safety/scanner/regex.ts:657-664 | letters are read by their place in the alphabet A-Z, 2-7, and nothing else is one |
| ScannerDecoders.Rot13IsAnInvolution | src/safety/scanner/regex.ts:700-705 | rot13 is its own inverse on every text |
| ScannerLaws.Rot13Exactly | src/safety/scanner/regex.ts:700-705 | each letter moves thirteen places round the alphabet in its own case, all else stays |
| ScannerDecoders.TagsSurviveCover | src/safety/scanner/regex.ts:735-742 | a printable secret hidden as tags in any tag-free cover text is recovered if it has three characters, else nothing |
| ScannerDecoders.DecodeVariationSelectors | src/safety/scanner/regex.ts:748-764 | the pairing loop reads one byte per two selectors |
| ScannerDecoders.SelectorsSurviveCover | src/safety/scanner/regex.ts:748-764 | the same recovery for variation selectors |
| MorseDecoder.MorseRoundTrip | src/safety/scanner/regex.ts:800-828 | any list of words of letters and digits in international Morse code, single blanks inside a word and any one separator between words, decodes to the words |
| MorseDecoder.EveryLetterHasCode | src/safety/scanner/regex.ts:804-812 | the table has, for each lower-case letter and digit, the code of ITU-R M.1677-1 |
| MorseLaws.SeparatorExactly | src/safety/scanner/regex.ts:818-822 | a separator starts exactly at three white-space characters or at a slash after any number of them |
| MorseLaws.OnlyCodesDecode | src/safety/scanner/regex.ts:815-828 | a token that is no letter's or digit's code is read as nothing |

## Left out

- Events, logging, prompts, HTTP and sockets: replies are parameters of the methods and events of the state machines; listeners are taken not to throw.
- Cryptography, transaction and identity serialization, JSON, hex and UTF-8: abstract functions; printing JSON and parsing it back is taken as inverse for the values printed, which finite data of the runtime are, hash160 as injective, whether a build or a signature succeeds as given.
- Contentmultimap keys stand for the i-addresses of VDXF names; that the addresses differ is in the datatype.
- Amounts in coins are reals; but for the rescaling of targets, floating-point error is not part of this model.
- A broadcast that fails is taken not to reach the chain, and one that succeeds to be applied before the next cycle reads.
- The single-item accept methods of the agent: special cases of the batch.
- InboxGuarantees.EveryItemHasOneFate: needs distinct ids among the items of supported types; InboxFates.OneFateExactly gives the exact condition.
- InboxLaws.BatchExactly: for distinct ids among the items of supported types; with repeated ones bisection also picks up candidates that were put off.
- InboxRuns.EachItemIsBroadcastOnce: needs steady additions and disjoint keys; InboxReplay.ReplaySafetyExactly gives the exact condition.
- InboxReplay.DisjointPoolsExactly: a made-up job record is taken to pass the size limits at two seconds at least; one that never passes is never broadcast.
- WalletValue.ChainedSendsConserveValue: says nothing once spent outpoints or pending change have been evicted, and takes the platform's coin list to be truthful about values and complete about confirmed outputs.
- CreditWatching.RecordedSpendIsCapped: takes the clock to be positive and never to go back, and the top-up amount not to be negative.
- JobPolling.FailedAcceptsAreBounded: a job that leaves the response of a finished poll, or is evicted from the seen set, starts afresh; that is the code's design.
- The legacy parent-keyed decoder (src/onboarding/vdxf.ts:675-786): only which maps take that route is modelled.
- VdxfProfile.ProfileRoundTrip: network endpoints, tags and models are lists of texts, session and platform blocks are JSON objects; their inner schema is not read by the decoder either. Values over the on-chain size limit, which the update refuses, are not told apart. Empty texts, lists, session and platform blocks count as not given.
- VdxfProfile.DecodeContentMultimap: the legacy route is one value of the result, without the fields it would decode.
- ServiceCodec.ServiceRoundTrip: prices are finite numbers that the runtime prints and reads back, resolution windows whole ones; which numbers those are is a parameter, and SatoshiNumbers.AmountsRoundTrip shows that the assumption about it can be met. Empty texts and lists count as not given.
- Payment.BuildPayment: selects for the exact target, where the source selects for the rescaled one; Rescaling.RescalingExactly says up to where they are the same. Amounts given in coins are reals that are rounded to satoshis once.
- Rescaling.RescalingExactly: the exponents of doubles are unbounded, and ties may go either way.
- SigningMessages.MessagesAreUnambiguous: amounts are the texts they print as, timestamps are whole non-negative seconds.
- SigningMessages.GuardExactly: for ASCII texts; which other texts normalize to a protocol head is a matter of Unicode tables.
- VdxfLaws.StoredRecordIsRead: the JSON text of a record is taken not to look like hex, as its first character is a brace.
- SigningMessages.GuardRefusesEveryMessage: Unicode normalization is abstract, and taken to leave ASCII and an ASCII start up to a pipe alone.
- ScannerDecoders.Base32RoundTrip: upper-casing and UTF-8 decoding are abstract, and the former is taken to do to ASCII what it says.
- MorseDecoder.MorseRoundTrip: tokens that name members of JavaScript's object prototype, which the table lookup would find, are not modelled.
- IdentityHistory.DecodeReviewHistory: rows hold the whole record; the four further fields the source picks out of it are not modelled.
- Regex pattern tables, Unicode confusables and scan scores of the scanner: tuned constants of foreign library semantics.
- Pricing tables, field validators, key removal payloads, egress, jailbox and workspace: only easy members, or disabled by default.
