# Glassbox state machines, modelled and proved in Dafny

This project models the transactional core of Glassbox: the Run and delivery protocol, the
authorization ledger, the provenance of protected sources, Conversations under identity rebinding,
durable memory, the context budget, the canonical keys, the stores of secrets, keyset pagination and
newline framing. Each part comes as a value model of its tables with one total function per
transaction and one event per way the tables can change, lemmas about every history of events, and a
class whose methods carry out the transactions statement by statement and are proved to do to the
fields what the function does to the value.

| files | part |
|---|---|
| `lifecycle_*.dfy` | Runs, deliveries, leases, who may move them, recovery, attention items, every row after every step |
| `auth_*.dfy`, `policy_conditions.dfy` | grants, approvals, decisions, delegation, provisioning, completion, source routes |
| `provenance_*.dfy` | marks on Runs, history and dependency admission, whole loads, delivery rechecks, who carries which marks |
| `delivery_transactions.dfy` | Runs, deliveries and the ledger in one state |
| `histories.dfy` | what a history of each part is |
| `conversations_*.dfy`, `keys.dfy`, `destinations.dfy` | message routing, rebinding, scope and cache keys, stored destinations |
| `memory_*.dfy` | candidates, promotion, supersession, corrections, edits, source sets, ancestors |
| `budget.dfy`, `history_messages.dfy`, `toolcalls.dfy` | context budget, message pairing, tool-result accounting, retries |
| `stablejson*.dfy` | the canonical encoder and its unique readability |
| `profiles_*.dfy`, `paging.dfy` | model and channel secrets, cursors |
| `utf8.dfy`, `framing.dfy` | the streaming decoder, stdout framing |

The functions of the `*_model.dfy` files say what each transaction does. What they come to is stated
apart from them, over the tables alone: `LifecycleRows`, `LifecycleRefusals`, `AuthEvaluation`,
`AuthPolicy`, `AuthCompletion`, `ProvenanceDependencies`, `ProvenanceLoads`, `ConversationsRows`,
`MemoryRows`, `MemoryEdits` and `ProfilesRows` say for each of them exactly when it goes through and
what every row is afterwards.

## How the models read

- A transaction commits the state its function returns or leaves the state alone. A refusal that the
  code commits (a recorded decision) is a new state; an exception is the old one.
- A lease settlement is two events, because the code clears the captured flag before it awaits its
  transaction: anything may happen in between. A crash removes every lease; recovery is an event of
  its own, so the theorems do not depend on it running only at startup.
- Rows the code never deletes are sequences and are named by their position. Identifiers drawn at
  random are arguments of the event, and an event with a used one changes nothing.
- Clocks are integers given to the event. Nothing depends on their order.
- Scopes stand for their keys in grants, messages and locations; `CanonicalKeys.ScopeKeysAreExact`
  shows that the keys tell scopes apart. Digests stand for what they digest.
- Where a result depends on an authorization recheck that is not the point of the model, the event
  says what the recheck decided, and the theorems hold for every such answer. In the lifecycle
  model the argument `allowed` of a delivery operation covers the recheck that
  `ProvenanceModel.DeliveryGate` models in full; `delivery_transactions.dfy` runs both in one state.
- Fields named as history (`issued`, `claimedBy`, `basis`, `taint`, `admitted`, `log`, `suppliedFor`)
  record what happened. No transaction reads them.
- Texts are sequences whose elements stand for UTF-16 code units where the code measures
  `length`, and for code points in `utf8.dfy` and `framing.dfy`, where it measures bytes.
- Token sums in `budget.dfy` are integers. The code adds at most four safe integers before it
  compares with a budget that is a safe integer itself, so rounding can never change the comparison;
  only the reported floor could be rounded.

## Where the plain statement fails

Some expected laws hold only under a condition. The condition is exact, the law holds if and only if it
is met, except where the row says otherwise; a lemma shows what happens without it, by a history from an
empty store where histories are what it is about.

| law | condition | lemmas |
|---|---|---|
| a lease's outcome belongs to its own claim | no send is started on a delivery under a lease that can still settle | `OutcomesBelongToTheirClaim`, `StepKeepsOwnExactlyWhen`, `AStaleLeaseIsReachable` |
| a delivery rechecks every source marked on its Run | the caller's own marks cover those made for somebody else | `EveryMarkIsRecheckedExactlyWhen`, `ForeignMarksHappen` |
| a reader carries every mark of the Runs it was given | whatever is marked on a Run is carried by the Runs given its text already, or marked on them too | `CarryingAlways`, `LateMarkIsCarriedExactlyWhen`, `LateMarksHappen` |
| a model store keeps a slot per profile | the file it was opened from has one | `SlotsStayApartExactlyWhen`, `SharingLastsExactlyWhile`, `SharedModelSlotsAreRead` |
| a correction keeps deadline and sensitivity | the memory it corrects has not run out | `CorrectionsKeepTerms`, `CorrectionsAfterExpiryStartAfresh` |
| storing a source's route does not change its answer | no malformed claim is stated, or the action is one on a group; nothing allowed has one | `RecalledAnswersDifferExactlyWhen`, `AllowedRoutesAreRecalled` |
| equal texts mean equal values | the values are equal once negative zero is read as zero and non-finite numbers as null | `StableJsonDecidesEquality`, `UnprintableNumbersCollide` |
| a stored destination matches only its own location | it is written for a scope, or is the key of a location without a thread | `DestinationMatchesItsLocation`, `LocationKeysMatchTheirChatToo` |
| how a stream is cut does not matter | the limit does not trip, which is so exactly when no chunk and the unfinished line before it exceed it together (sufficient: a tripped reader has ended) | `BytesMayBeCutAnywhere`, `TripsExactlyWhen`, `OneChunkMayTripWhereTwoPass` |

`failQueuedDispatch` also fails Runs that are queued or running, an edge from queued that the
transition table does not list; `LifecycleRuns.RunEdge` has it. The comment on `claimDelivery` says that
its closure can only record that particular send's outcome; that is so in exactly the histories that
keep the condition of the first row.

## Model

| member | source | states |
|---|---|---|
| LifecycleRuns.RunFactsAreFinal | apps/server/src/conversation/lifecycle.ts:128-137 | No step of any writer removes a Run, changes its address, returns it to queued, or touches the status or result of a terminal one; a started Run is cancelled only from cancelling |
| LifecycleRuns.TerminalForever | apps/server/src/conversation/lifecycle.ts:342-395 | Through any history a terminal Run keeps its status and its result |
| LifecycleRuns.RunsInvAlways | apps/server/src/conversation/lifecycle.ts:466-484 | Through any history a Conversation has at most one running or cancelling Run, and sequence numbers stay unique |
| LifecycleRuns.StartsIncrease | apps/server/src/conversation/lifecycle.ts:466-490 | From any reachable state, the Runs of a Conversation start in strictly increasing sequence order |
| LifecycleRuns.StartsIncreaseFromTheBeginning | apps/server/src/conversation/lifecycle.ts:466-490 | The same for every history from an empty store |
| LifecycleRuns.ClaimSucceedsExactlyWhen | apps/server/src/conversation/lifecycle.ts:308-309 | A claim starts a Run if and only if the caller may control it, it is first in its queue and nothing in its Conversation is active |
| LifecycleRuns.QueueIsNeverStranded | apps/server/src/conversation/lifecycle.ts:466-484 | Whenever a Conversation has queued Runs and no active one, its lowest-sequence queued Run is claimable by its own principal |
| LifecycleRuns.RecoveryUnblocksEveryQueue | apps/server/src/conversation/lifecycle.ts:546-577 | Recovery leaves no Run active and no queued or settled Run changed |
| LifecycleDeliveries.SendBalance | apps/server/src/conversation/lifecycle.ts:138-144 | Over any history, entries into sending minus entries into failed is the change in whether the delivery is sending, sent or unknown |
| LifecycleDeliveries.EverySendIsAccountedFor | apps/server/src/conversation/lifecycle.ts:399-450 | From the beginning of any history that difference is 1 exactly while the delivery is sending, sent or unknown, and 0 otherwise |
| LifecycleDeliveries.NeverSentAgain | apps/server/src/conversation/lifecycle.ts:643-683 | A sent or unknown delivery never enters sending again, whatever is claimed, settled, crashed or recovered |
| LifecycleDeliveries.PayloadsAreImmutable | apps/server/src/conversation/lifecycle.ts:606-639 | A stored delivery never disappears and its Run, key, destination and payload never change |
| LifecycleDeliveries.StepIsDeliveriesStep | apps/server/src/conversation/lifecycle.ts:138-144 | Every event moves every delivery along a listed edge or not at all, and adds only pending ones |
| LifecycleDeliveries.LeasesAreLinear | apps/server/src/conversation/lifecycle.ts:311-395 | Through any interleaving of retries, crashes and other writers a lease commits at most one settlement |
| LifecycleDeliveries.LeasesAreLinearFromTheBeginning | apps/server/src/conversation/lifecycle.ts:426-450 | The same for every history from an empty store |
| LifecycleClaims.StepKeepsOwnExactlyWhen | apps/server/src/conversation/lifecycle.ts:426-450 | A step keeps every live lease about the send under way if and only if it starts no send on a delivery under a lease that can still settle; the guard reads the state before the step alone |
| LifecycleClaims.OutcomesAreOwnExactly | apps/server/src/conversation/lifecycle.ts:426-450 | Every outcome a lease could record, whenever it is begun, is about the claim that issued it if and only if each live lease of a sending delivery is that delivery's latest claim |
| LifecycleClaims.OutcomesBelongToTheirClaim | apps/server/src/conversation/lifecycle.ts:426-450 | In every history from an empty store, whatever a lease could record was about its own claim at every moment if and only if no send was ever started on a delivery under a lease that could still settle |
| LifecycleClaims.OutcomesBelongWithoutHands | apps/server/src/conversation/lifecycle.ts:426-450 | In particular in every history in which sending is left only through leases or recovery |
| LifecycleClaims.AStaleLeaseSettlesALaterClaim | apps/server/src/conversation/lifecycle.ts:645-683 | From any state with a send under way, failing it by hand, retrying and claiming again lets the first claim's lease settle the second claim |
| LifecycleClaims.AStaleLeaseIsReachable | apps/server/src/conversation/lifecycle.ts:645-683 | An eight-step history from an empty store gets there, for any caller, Run, delivery and pair of leases |
| LifecycleAttention.SentDeliveriesHaveNoOpenItem | apps/server/src/delivery/attention.ts:10-36 | Through any history every item under a delivery's name is about that delivery and its Conversation, and no sent delivery has an open one |
| LifecycleAttention.NoOpenItemFromTheBeginning | apps/server/src/delivery/attention.ts:18-23 | From an empty store, no history leaves a sent delivery with an open item |
| LifecycleAttention.BatchSize | apps/server/src/delivery/attention.ts:47-53 | The ordered, limited batch has exactly min(limit, candidates) deliveries |
| LifecycleAttention.RecoveryCatchesUp | apps/server/src/delivery/attention.ts:38-55 | Each recovery lowers the number of sending, failed or unknown deliveries without an item by min(1000, that number), adds none, and leaves every existing item as it was |
| LifecycleAttention.OnlySendingAddsToLacking | apps/server/src/delivery/attention.ts:24-36 | Only entering sending adds to the deliveries lacking an item; no settlement, by lease or by hand, raises their number |
| LifecycleStores.LifecycleStore.TransitionRun | apps/server/src/conversation/lifecycle.ts:454-495 | Checks in the order of the code, and changes exactly one Run or nothing |
| LifecycleStores.LifecycleStore.ClaimQueuedRun | apps/server/src/conversation/lifecycle.ts:308-312 | Returns a lease only when the Run really entered running |
| LifecycleStores.LifecycleStore.BeginSettleRun | apps/server/src/conversation/lifecycle.ts:346-356 | Clears the captured flag before the transaction, once |
| LifecycleStores.LifecycleStore.CommitSettleRun | apps/server/src/conversation/lifecycle.ts:356-392 | Records the outcome of an active Run and withholds unreadable output, or raises the flag again |
| LifecycleStores.LifecycleStore.ReconcileRun | apps/server/src/conversation/lifecycle.ts:313-345 | Clears the flag only when the Run is already terminal |
| LifecycleStores.LifecycleStore.FailQueuedDispatch | apps/server/src/conversation/lifecycle.ts:497-542 | Fails a queued or running Run with an attention item, cancels a cancelling one, leaves a terminal one |
| LifecycleStores.LifecycleStore.CancelForTask | apps/server/src/execution/run-service/index.ts:277-331 | Cancels a queued Task step Run or asks a running one to stop |
| LifecycleStores.LifecycleStore.CreateDelivery | apps/server/src/conversation/lifecycle.ts:579-641 | Inserts one pending delivery per key; a repeated key returns the stored one or is refused over a different payload |
| LifecycleStores.LifecycleStore.ClaimDelivery | apps/server/src/conversation/lifecycle.ts:399-425 | Moves a pending delivery of this Run and destination to sending and issues the lease of that claim |
| LifecycleStores.LifecycleStore.BeginSettleDelivery | apps/server/src/conversation/lifecycle.ts:429-434 | Clears the captured flag before the transaction, once |
| LifecycleStores.LifecycleStore.RecordAttention | apps/server/src/delivery/attention.ts:10-36 | Files, reopens or resolves exactly this delivery's item, or refuses an item that is not its own |
| LifecycleStores.LifecycleStore.CommitSettleDelivery | apps/server/src/conversation/lifecycle.ts:434-447 | Records the outcome and its item together, or neither, raising the flag again |
| LifecycleStores.LifecycleStore.TransitionDelivery | apps/server/src/conversation/lifecycle.ts:645-683 | Moves a delivery by hand along a listed edge, with its item for an outcome, or changes nothing |
| LifecycleStores.LifecycleStore.Crash | apps/server/src/conversation/lifecycle.ts:311-312 | Every lease is gone; the tables stay |
| LifecycleStores.LifecycleStore.Recover | apps/server/src/conversation/lifecycle.ts:546-577 | Backfills items from the statuses before the sweep, then interrupts running, and marks cancelling Runs and sending deliveries unknown |
| LifecycleAccess.OthersChangeNothing | apps/server/src/conversation/lifecycle.ts:308-395 | Whatever other principals do, settle and crash, a Run nobody holds a lease on keeps its row and its deliveries and gets no new one |
| LifecycleAccess.DeliveriesMoveAtTheirDestination | apps/server/src/conversation/lifecycle.ts:399-425 | Apart from a lease's settlement and recovery, a delivery is moved only by its Run's principal calling from the delivery's destination, and only for an external Run |
| LifecycleAccess.DeliveriesStartAtTheirDestination | apps/server/src/conversation/lifecycle.ts:603-613 | A new delivery is addressed to where its creator calls from, for an external Run of theirs |
| LifecycleAccess.UnstartedRunsFailExactlyWhen | apps/server/src/conversation/lifecycle.ts:497-542 | In every history, a queued Run that never starts has failed if and only if a failed dispatch was reported for it while it waited, by its own principal from its own scope under a fresh name; nothing else ends it but being cancelled, and a failed one says so and leaves an item for its Conversation on file for good |
| LifecycleSettlements.OneDeliveryPerKey | apps/server/src/conversation/lifecycle.ts:616-640 | In every history a Run has at most one delivery per key |
| LifecycleSettlements.CreatingTwiceIsCreatingOnce | apps/server/src/conversation/lifecycle.ts:616-640 | Creating a delivery again, whatever happened in between, stores nothing more; it is answered with the first one exactly when the payload is the same, and refused otherwise |
| LifecycleSettlements.UnfinishedRunsKeepTheirLease | apps/server/src/conversation/lifecycle.ts:311-392 | Through any interleaving of settlements, retries and reconciliations a lease goes silent only when its Run has ended |
| LifecycleSettlements.CrashEndsEveryLease | apps/server/src/conversation/lifecycle.ts:311-312 | A lease handed out before a crash settles nothing after it |
| LifecycleSettlements.WithheldOutputNeverAppears | apps/server/src/conversation/lifecycle.ts:356-392 | Output the rechecks did not clear at settlement is in no later state; output they cleared stays, and so does the code of a failure |
| LifecycleSettlements.TextsAreOnlyWithheldBySettlement | apps/server/src/conversation/lifecycle.ts:484-493 | A stored text is taken away only by the settlement that withholds it |
| LifecycleSettlements.LeasedOutcomesAreOnShow | apps/server/src/conversation/lifecycle.ts:434-447 | An outcome recorded by lease keeps the provider's identifier and leaves an open item exactly when it is not a success |
| LifecycleSettlements.HandOutcomesAreOnShow | apps/server/src/conversation/lifecycle.ts:645-683 | The same by hand, where a stored identifier is not lost |
| LifecycleSettlements.RecoveryClaimsNoOutcome | apps/server/src/conversation/lifecycle.ts:546-577 | Recovery ends a running Run as interrupted, and a cancelling Run and a delivery being sent as unknown, keeps texts and identifiers, touches no other row, and is idempotent on Runs and deliveries |
| AuthDelegation.WalkChain | apps/server/src/auth/service.ts:139-177 | The bounded walk with its seen set decides exactly whether every link to the root lists the permission |
| AuthDelegation.ChainAllowsExactlyWhen | apps/server/src/auth/service.ts:139-177 | A chain passes if and only if a root is reached without repetition in at most five Tasks and every link on the way lists the permission (or the action is the Task's own business) |
| AuthDelegation.DelegationOnlyAttenuates | apps/server/src/auth/service.ts:152-176 | Whatever non-technical permission a child passes its parent passes, and the child's own link lists it |
| AuthDelegation.CyclesAndLongChainsAreRefused | apps/server/src/auth/service.ts:143-145 | A Task above itself, or with five Tasks above it, is refused whatever it asks for |
| AuthDelegation.LineagesNeverRepeat | apps/server/src/auth/source-dependencies.ts:28-53 | A way up that reaches a root never visits a Task twice |
| AuthDelegation.WalkSources | apps/server/src/auth/source-dependencies.ts:28-53 | The source walk returns the origin Runs of exactly the Task's lineage, or fails |
| AuthDelegation.SourcesAreTracedExactlyWhen | apps/server/src/auth/source-dependencies.ts:28-53 | It succeeds if and only if there is a lineage of the shape the authorization walk accepts and its Task and Run rows exist |
| AuthGrants.OnlyOnPurpose | apps/server/src/auth/service.ts:581-613 | No event removes or unrevokes a row; one live row per tuple and effect is kept; only a non-initial grant or provisioning activates a tuple that ever had a row |
| AuthGrants.AtMostOneLiveRow | apps/server/src/auth/service.ts:708-752 | Through any history at most one unrevoked row exists per principal, Resource, action, scope and effect |
| AuthGrants.RevocationsStick | apps/server/src/auth/service.ts:626-636 | Through any history of initial provisioning, backfills and everything else, a configured tuple is not activated until somebody grants it on purpose |
| AuthGrants.BackfillCoversReaders | apps/server/src/auth/service.ts:775-813 | Backfill leaves every live allow-reader with a delivery row, adds one row for each reader that had none at all, and activates no tuple that had any |
| AuthGrants.SecondBackfillAddsNothing | apps/server/src/auth/service.ts:775-813 | A second backfill adds nothing |
| AuthGrants.ReadersAreExact | apps/server/src/auth/service.ts:782-786 | The readers are exactly the distinct principals and scopes with a live allow row |
| AuthGrants.AllowNeedsALiveGrant | apps/server/src/auth/service.ts:271-321 | Nothing is allowed unless the sender is bound to that principal, the Resource exists, delegation passes, and a live row covers the tuple or the creator's Task policy |
| AuthGrants.RevocationIsImmediate | apps/server/src/auth/service.ts:815-855 | After revoking every row of a tuple the next evaluation of it is not ALLOW, approvals and completed reads included |
| AuthApprovals.StepKeeps | apps/server/src/auth/service.ts:322-408 | Every event keeps approvals' facts, never un-consumes one, and keeps every decision naming one tied to it |
| AuthApprovals.ApprovalsAreOneShot | apps/server/src/auth/service.ts:322-408 | In every history the decisions naming an approval are ALLOWs on its own principal, Resource, action, scope and grant; exactly one consumed it, it comes first, and every other rechecks an earlier one |
| AuthApprovals.ConsumedApprovalsAdmitNobody | apps/server/src/auth/service.ts:387-408 | Naming a consumed approval admits nobody unless an allow row covers the request anyway |
| AuthServices.AuthorizationService.DelegatedTaskAllows | apps/server/src/auth/service.ts:76-178 | Decides delegation with the Run-to-Task binding, the Task row and the chain, in that order |
| AuthServices.AuthorizationService.FindGrant | apps/server/src/auth/service.ts:288-314 | Allow rows first, then approval rows, then the creator's Task policy |
| AuthServices.AuthorizationService.Evaluate | apps/server/src/auth/service.ts:262-408 | Appends exactly one decision, with the first failing check as its reason, and consumes at most the named approval |
| AuthServices.AuthorizationService.EvaluateApproval | apps/server/src/auth/service.ts:324-408 | Completed read, admitted Run or fresh approval, in that order |
| AuthServices.AuthorizationService.CompleteReadAuthorization | apps/server/src/auth/service.ts:440-520 | Rechecks the reads and the dependent action in one transaction and marks the new decisions only when all are allowed |
| AuthServices.AuthorizationService.MarkDecision | apps/server/src/auth/service.ts:524-541 | Sets a mark on an ALLOW decision that has none |
| AuthServices.AuthorizationService.WriteGrant | apps/server/src/auth/service.ts:708-752 | Adds a row only where the mode and the live rows of the tuple leave room |
| AuthServices.AuthorizationService.Revoke | apps/server/src/auth/service.ts:754-920 | Revokes exactly the selected live rows |
| AuthServices.AuthorizationService.Approve | apps/server/src/auth/service.ts:922-953 | Copies an approval's facts from a live approval-only grant |
| AuthServices.AuthorizationService.ProvisionResources | apps/server/src/auth/service.ts:581-613 | Registers, evaluates and grants entry by entry; a conflict leaves everything as it was |
| AuthServices.AuthorizationService.BackfillDeliveryForReaders | apps/server/src/auth/service.ts:775-813 | Adds the missing delivery rows and returns how many |
| ProvenanceRuns.StepKeepsClosure | apps/server/src/conversation/store.ts:1645-1722 | Every step keeps all sources of whatever text a Run was given marked on that Run, for its own principal |
| ProvenanceRuns.ClosureAlways | apps/server/src/conversation/store.ts:1210-1722 | The same through every history in which marks are made on decisions of the Run's own principal |
| ProvenanceRuns.EveryDeliveryRechecksEverySource | apps/server/src/conversation/lifecycle.ts:155-200 | When a delivery transaction lets a Run's output through, that same transaction allowed every source of the Run's text, taken in however indirectly, to the caller again, under the same route and, for content, for sending too |
| ProvenanceRuns.DeliveriesRecheckWholeLineages | apps/server/src/conversation/lifecycle.ts:155-200 | The same for every history from an empty ledger |
| ProvenanceClosure.LoadCarriesItsSources | apps/server/src/conversation/store.ts:1125-1722 | Loading an input marks only this Run, only for its principal, and covers every Run, Task origin and dependency whose text it took in |
| ProvenanceClosure.TurnsAreCarried | apps/server/src/conversation/store.ts:1645-1722 | Each earlier turn admitted as history leaves all its sources on the reader |
| ProvenanceClosure.DependencyIsCarried | apps/server/src/conversation/store.ts:1380-1594 | Each dependency result admitted leaves the sources of its Run or origin, and its own reads, on the reader |
| ProvenanceGate.DeliveryPassesExactlyWhen | apps/server/src/conversation/lifecycle.ts:155-200 | A delivery passes if and only if every source marked on the Run for its principal is allowed now, and every content source for sending |
| ProvenanceGate.LosingASourceStopsDelivery | apps/server/src/conversation/lifecycle.ts:182-198 | Without a live grant for one source of the whole lineage, or for sending it, no delivery of the Run passes |
| ProvenanceGate.EveryMarkIsRecheckedExactlyWhen | apps/server/src/conversation/lifecycle.ts:163-198 | A delivery that passes rechecks every source marked on its Run, whoever it was marked for, if and only if the caller's own marks cover each one marked for somebody else: the same Resource, action and route, and sending where content was read |
| ProvenanceGate.ForeignMarksAreNotRechecked | apps/server/src/conversation/lifecycle.ts:163-171 | A source of a Resource that none of the caller's own marks is about goes unchecked, whatever else is marked on the Run |
| ProvenanceWitnesses.ForeignMarksHappen | apps/server/src/conversation/lifecycle.ts:163-171 | A history from an empty store leaves a Run with a source marked for somebody else, and every delivery of it passes without rechecking that source |
| ProvenanceCarrying.StepCarriesExactlyWhen | apps/server/src/conversation/store.ts:1700-1714 | Where every reader carries the marks of the Runs it was given, an event of any kind keeps it so if and only if whatever it marks on a Run, each Run given that text carries already or is marked with too |
| ProvenanceCarrying.LateMarkIsCarriedExactlyWhen | apps/server/src/conversation/store.ts:1624-1627 | For a single mark: if and only if every other Run given the text carries its key already, in the state before the mark |
| ProvenanceCarrying.CarriedExactlyWhen | apps/server/src/conversation/store.ts:1700-1714 | Through any history every reader carries all marks of every Run it was given, at every moment, if and only if each event's marks reached the readers when they were made |
| ProvenanceCarrying.CarryingAlways | apps/server/src/conversation/store.ts:1700-1714 | The same for every history from an empty store |
| ProvenanceCarrying.MarksReachEveryReader | apps/server/src/conversation/store.ts:1700-1714 | Then along any chain of texts handed on, the last reader carries all the marks of the first Run |
| ProvenanceWitnesses.LateMarksHappen | apps/server/src/conversation/store.ts:1624-1627 | A history from an empty store in which a source is marked after the text was handed on, and the reader does not carry it |
| ProvenanceTaking.LoadMarksExactlyWhatItTakesIn | apps/server/src/conversation/store.ts:1125-1722 | After a load that goes through, the Run's marks are exactly its earlier ones, those of the Runs whose text it took in, and its own reads: nothing is missing and nothing else is marked |
| DeliveryTransactions.WritesAreRechecked | apps/server/src/conversation/lifecycle.ts:579-683 | With Runs, deliveries and the ledger in one state: a create, claim or transition by a caller writes a row only if, in the same transaction, it allowed every source of the Run's text to that caller again, and the Run is the caller's own |
| DeliveryTransactions.NothingIsSentUnchecked | apps/server/src/conversation/lifecycle.ts:155-200 | In every history of that state, each delivery was made by a transaction that rechecked every source of the Run's text as it was then, and each one no longer pending was taken into sending by one that rechecked every source once more |
| DeliveryTransactions.NothingIsSentUncheckedFromTheBeginning | apps/server/src/conversation/lifecycle.ts:399-425 | The same for every delivery of every history from an empty store |
| DeliveryTransactions.RunsAgreeAlways | apps/server/src/conversation/lifecycle.ts:546-577 | In every such history both sides tell the same of every Run: its principal, Conversation, kind, status and text |
| ProvenanceGate.VerdictIsStable | apps/server/src/auth/service.ts:358-385 | An evaluation without an approval in hand changes no later verdict of such an evaluation |
| ProvenanceRuns.ReadContentMayBeSent | apps/server/src/auth/source-dependencies.ts:55-61 | Whatever kind of mark says that content was read, old kinds included, a delivery is let through only if that content may be sent by the caller now |
| ProvenanceRuns.RechecksAreFiled | apps/server/src/conversation/lifecycle.ts:155-200 | What a delivery's recheck records is filed under its Run, and under the Run's Conversation exactly when the Run is the caller's own |
| ProvenanceMarks.SourceRowsAreDistinct | apps/server/src/auth/source-dependencies.ts:63-90 | Each source is rechecked once, however many decisions it was marked on |
| ProvenanceHistory.HistoryIsItsConversations | apps/server/src/conversation/store.ts:1598-1722 | Everything in a Run's history is an earlier external Run's question and answer from the same Conversation, not excluded, succeeded or failed with something sent, with every grant it used still standing |
| ProvenanceHistory.TurnIsGivenExactlyWhen | apps/server/src/conversation/store.ts:1645-1722 | A turn is given if and only if its grants stand, every source is readable now, it has an answer for this reader, and it fits; one lacking only room is listed as left out |
| ProvenanceHistory.AnswersStayWhereTheyWereSent | apps/server/src/conversation/store.ts:1680-1693 | Another principal's answer is shown only as it was sent to the reader's own location |
| ProvenanceHistory.LoadedHistoryIsBounded | apps/server/src/conversation/store.ts:1611-1700 | At most 256 turns and 1,000,000 characters, counted exactly |
| ProvenanceHistory.CandidatesAreTheNewest | apps/server/src/conversation/store.ts:1598-1606 | A reusable earlier turn is a candidate unless 257 newer ones are |
| ProvenanceHistory.CandidatesDescend | apps/server/src/conversation/store.ts:1598-1606 | Candidates come newest first |
| ProvenanceMarks.SourceRowsAreExact | apps/server/src/auth/source-dependencies.ts:12-26 | The distinct rows are exactly the marked ALLOW decisions of those Runs and that principal |
| ProvenanceReaders.ConversationReader.ListSources | apps/server/src/auth/source-dependencies.ts:12-26 | SELECT DISTINCT over the marked ALLOW decisions |
| ProvenanceReaders.ConversationReader.ReauthorizeSourceRows | apps/server/src/auth/source-dependencies.ts:63-90 | Evaluates and marks in order, stopping at the first refusal |
| ProvenanceReaders.ConversationReader.AuthorizeDeliverySources | apps/server/src/conversation/lifecycle.ts:155-200 | The recheck loop of a delivery |
| ProvenanceReaders.ConversationReader.ListEarlier | apps/server/src/conversation/store.ts:1598-1606 | The reusable turns, newest first, one more than may be used |
| ProvenanceReaders.ConversationReader.FindDelivery | apps/server/src/conversation/store.ts:1683-1688 | The newest sent delivery of the Run at the reader's location |
| ProvenanceReaders.ConversationReader.ReadTurn | apps/server/src/conversation/store.ts:1645-1722 | One turn against the rows fetched before the first evaluation |
| ProvenanceReaders.ConversationReader.LoadHistory | apps/server/src/conversation/store.ts:1598-1722 | The whole history loop with its accumulators |
| ProvenanceReaders.ConversationReader.ReadDependency | apps/server/src/conversation/store.ts:1380-1594 | One dependency: own checks, inherited sources, and when each is marked |
| ProvenanceReaders.ConversationReader.LoadStepInput | apps/server/src/conversation/store.ts:1210-1594 | Origin first, then every dependency; a failure rolls back, a refusal commits |
| ConversationsIsolation.StepKeeps | apps/server/src/conversation/store.ts:488-711 | Every message, step Run and rebinding keeps private Conversations, locations, Runs and messages consistent |
| ConversationsIsolation.PrivateConversationsNeverMix | apps/server/src/conversation/store.ts:559-580 | In every history all Runs of a private Conversation have one principal, its own |
| ConversationsIsolation.LocationsStandForTheirConversations | apps/server/src/conversation/store.ts:633-658 | In every history a mapped location stands for a Conversation of that agent stored at that location |
| ConversationsIsolation.OneRunPerMessage | apps/server/src/conversation/store.ts:501-545 | In every history a channel message has at most one Run |
| ConversationsIsolation.RedeliveryReturnsTheSameRun | apps/server/src/conversation/store.ts:501-545 | However much happens in between, redelivery changes nothing and returns the first Run if and only if its sender is bound to that Run's principal by then, and is refused otherwise |
| ConversationsIsolation.PrivateMessagesGoHome | apps/server/src/conversation/store.ts:559-580 | A private sender is answered in a Conversation of their own, and in the same one when they come back to an identity |
| ConversationsIsolation.OneRunPerAttempt | apps/server/src/conversation/store.ts:840-897 | In every history an attempt has at most one Run |
| ConversationsIsolation.RepeatedStepsReturnTheSameRun | apps/server/src/conversation/store.ts:716-933 | Asking again for an attempt's Run creates nothing; it is answered with the first one if and only if it is asked for in the same Conversation by the same principal, who may use it by then |
| ConversationsIsolation.StepRunsComeFromTheirLocation | apps/server/src/conversation/store.ts:420-440 | The three ways to be at a Conversation's location agree: a step Run is asked for where the Conversation is stored, and in a private one by its principal |
| ConversationsIsolation.RoutingKeeps | apps/server/src/conversation/store.ts:547-658 | A message always finds or opens a Conversation at its own location, which the location then stands for; the unique key is never violated |
| ConversationsStores.ConversationStore.BindPrincipal | apps/server/src/identity/service.ts:56-67 | Overwrites one identity's principal |
| ConversationsStores.ConversationStore.BindOwner | apps/server/src/identity/service.ts:69-90 | Binds an Owner, refusing a principal of another kind |
| ConversationsStores.ConversationStore.Unbind | apps/server/src/identity/service.ts:92-101 | Deletes one identity |
| ConversationsStores.ConversationStore.RouteMessage | apps/server/src/conversation/store.ts:547-658 | Lookup, private remap, Owner takeover of a group, and opening, in the code's order |
| ConversationsStores.ConversationStore.AcceptIncoming | apps/server/src/conversation/store.ts:488-711 | One message: the prior Run, or routing and one new message and Run |
| ConversationsStores.ConversationStore.CreateInternalStepRun | apps/server/src/conversation/store.ts:716-933 | One Run per attempt, only where the caller may use the Conversation |
| CanonicalKeys.ScopeKeysAreExact | apps/server/src/identity/scope.ts:64-95 | Scope, location, identity and per-principal keys determine exactly the fields they were built from and never collide across kinds |
| Destinations.DestinationMatchesExactlyWhen | apps/server/src/conversation/store.ts:420-440 | Whatever text a destination is, it matches a location if and only if it is the location's own key, or parses to an array whose parts are the location's or to an object that passes the checks of a scope at that location |
| Destinations.DestinationMatchesItsLocation | apps/server/src/conversation/store.ts:420-440 | A destination written for a scope, as its key in any JSON text or as an object, matches a location if and only if the scope is at that location |
| Destinations.LocationKeysMatchTheirChatToo | apps/server/src/conversation/store.ts:427-431 | A location's own key stored as a destination matches its own location and, because its thread is read as a sender, also the same chat without a thread, and no other |
| MemorySupersession.StepKeeps | apps/server/src/learning/store.ts:1157-1702 | Every event keeps the active index exact, the inactive rows fixed, and supersedes lists behind the deactivation order |
| MemorySupersession.InactivityIsPermanent | apps/server/src/learning/store.ts:1568-1604 | Through any history a memory that is not active stays as it is and keeps what it superseded |
| MemorySupersession.SupersessionIsAcyclic | apps/server/src/learning/store.ts:1157-1343 | In every history supersedes lists name only inactive memories and never close a cycle |
| MemoryProvenance.PromotionKeepsEverySource | apps/server/src/learning/store.ts:1206-1343 | A promotion that succeeds leaves a memory carrying the sources of its candidate, of the row that had run out and of the row it matched, whether merged, retired or replaced |
| MemoryProvenance.SupersessionKeepsEverySource | apps/server/src/learning/store.ts:1606-1702 | An explicit correction leaves a memory carrying the sources of its candidate and of the one it supersedes |
| MemoryProvenance.StepCovers | apps/server/src/learning/store.ts:1099-1155 | Every event keeps promoted candidates' and superseded memories' sources in what came of them, and shrinks no set |
| MemoryProvenance.ProvenanceNeverShrinks | apps/server/src/learning/store.ts:1099-1155 | In every history no memory's sources shrink, and along any chain of supersession the newest carries all of the oldest |
| MemoryCorrections.CorrectionsKeepTerms | apps/server/src/learning/store.ts:288-308 | A silent correction of a memory that has not run out keeps its deadline and sensitivity under every strategy that succeeds |
| MemoryCorrections.SupersedingKeepsTerms | apps/server/src/learning/store.ts:1672-1682 | So does a silent explicit correction |
| MemoryCorrections.CorrectionsNeverLaunder | apps/server/src/learning/store.ts:288-308 | Along any chain of silent corrections the deadline and sensitivity at the end are those at the start |
| MemoryCorrections.CorrectionsAfterExpiryStartAfresh | apps/server/src/learning/store.ts:1226-1252 | The condition is needed: a silent correction with no current match starts a memory without deadline or sensitivity, even over one that had both |
| MemoryCorrections.AssertionsMayDropTerms | apps/server/src/learning/store.ts:1157-1174 | A silent assertion merged by upsert or replace drops the original's deadline and sensitivity |
| MemorySources.UnionLearningSources | apps/server/src/learning/source-dependencies.ts:99-120 | Keeps exactly one decision per key with the key set of the union; while each set fits the limit it fails if and only if a decision is unusable or there are more than 128 keys |
| MemorySources.SourceStore.Walk | apps/server/src/learning/source-dependencies.ts:346-478 | The shared counter bounds the walk by 32; on success the result is exactly what the row and everything its legacy links lead to carry |
| MemorySources.SourceStore.LearningSourcesFor | apps/server/src/learning/source-dependencies.ts:346-478 | Exactly the carried sources, stored on the way, or nothing at all |
| MemorySources.StoringCarriesOn | apps/server/src/learning/source-dependencies.ts:473-474 | Writing a row's proven sources back changes what no row carries |
| MemoryStores.LearningStore.WriteMemory | apps/server/src/learning/store.ts:1120-1122 | One row under its id and the unique index of active signatures |
| MemoryStores.LearningStore.PersistMemory | apps/server/src/learning/store.ts:1099-1155 | Adds to the stored sources, never replaces them |
| MemoryStores.LearningStore.InsertCandidate | apps/server/src/learning/store.ts:501-585 | A pending twin stands in and takes on the sources; otherwise a new candidate |
| MemoryStores.LearningStore.PromoteInTransaction | apps/server/src/learning/store.ts:1199-1343 | The whole promotion with its expiry, match, retire, replace and merge branches; a refusal puts everything back |
| MemoryStores.LearningStore.PromoteCandidate | apps/server/src/learning/store.ts:1345-1397 | Promotion and the confirming rewrite together |
| MemoryStores.LearningStore.SupersedeMemory | apps/server/src/learning/store.ts:1606-1702 | Candidate, retirement and replacement in one transaction |
| MemoryStores.LearningStore.UpdateMemory | apps/server/src/learning/store.ts:1522-1566 | Edits a current memory under the unique signature |
| MemoryStores.LearningStore.SetLifecycle | apps/server/src/learning/store.ts:1568-1604 | Ends an active memory |
| MemoryStores.LearningStore.MarkUsedRows | apps/server/src/learning/store.ts:982-1028 | Counts each current memory as used, all or none |
| MemoryStores.LearningStore.RecordFeedback | apps/server/src/learning/store.ts:1704-1810 | Adds sources to a pending candidate; contradiction makes it a correction |
| ContextBudget.ProjectContextBudget | apps/server/src/efficiency/index.ts:127-224 | Fails exactly on invalid input or when the floor with the required exchanges cannot fit; otherwise fits, keeps order, contains everything required, and is the best feasible choice |
| ContextBudget.GreedyIsBest | apps/server/src/efficiency/index.ts:187-205 | The newest-first pass is at least every feasible choice read newest to oldest |
| ContextBudget.BestIsTightAndMonotone | apps/server/src/efficiency/index.ts:187-205 | No omitted exchange fits the leftover, and a larger window never gives a worse choice |
| ContextBudget.LeftOverIsBudgetMinusCost | apps/server/src/efficiency/index.ts:187-205 | What is left is the budget less exactly the chosen exchanges |
| HistoryMessages.PairHistory | apps/server/src/execution/model-adapter.ts:61-77 | Pairs a history if and only if it alternates, with the estimates of both messages |
| HistoryMessages.WholeExchangesAreKept | apps/server/src/execution/model-adapter.ts:124-127 | What reaches the model is exactly the messages of the kept exchanges, whole and in order |
| HistoryMessages.MessagesCostTheirExchanges | apps/server/src/execution/model-adapter.ts:61-127 | The messages kept for a choice of exchanges cost exactly what the projection accounted for that choice |
| HistoryMessages.BoundHistory | apps/server/src/execution/model-adapter.ts:26-127 | From the history to the messages: refuses exactly an unknown capacity, a history that does not alternate, or a demand that is invalid or whose prompt and question alone do not fit; otherwise sends, whole and in order, the messages of the best choice of exchanges, and they fit the budget beside prompt and question |
| HistoryMessages.PairsHaveDistinctIds | apps/server/src/execution/model-adapter.ts:72-76 | Pairs are told apart by their ids, as the projection demands |
| StableJsonUnique.StableJsonDecidesEquality | apps/server/src/efficiency/index.ts:541-552 | Over printable values the texts are equal exactly when the values are equal as trees whose keys have no order (string escapes of section 7 of RFC 8259) |
| StableJsonUnique.UnprintableNumbersCollide | apps/server/src/efficiency/index.ts:541-552 | Negative zero and non-finite numbers print as zero and null, so the condition is needed |
| CanonicalKeys.CacheKeysAreExact | apps/server/src/efficiency/index.ts:502-521 | Cache keys agree exactly when all fourteen identity fields do |
| CanonicalKeys.CacheHitIsExact | apps/server/src/efficiency/index.ts:523-535 | An entry is accepted exactly when all identity fields match and it has not expired |
| CanonicalKeys.CallKeysAreExact | apps/server/src/efficiency/index.ts:466-500 | Duplicate-call keys agree exactly when the calls do |
| ToolCalls.ProjectToolResultsForTurn | apps/server/src/efficiency/index.ts:323-421 | Every result is decided in order within the turn's budget and counted in its class; the turn fails exactly when a result that must be preserved is lost, naming the first one |
| DeliveryTransactions.DeliveriesGoThroughExactlyWhen | apps/server/src/conversation/lifecycle.ts:155-200 | With both sides in one state, a delivery goes through if and only if it could be written were every source allowed, and every source is; a refused source leaves its recheck on record and the tables alone, and what is wrong with the request leaves everything alone |
| MemorySources.UsableExactlyWhen | apps/server/src/learning/source-dependencies.ts:75-97 | A source is usable if and only if its decision is there, allowed its read, and says what it was about |
| Destinations.ScopesAreReadExactly | apps/server/src/identity/scope.ts:36-63 | An object is read as this scope if and only if its fields say so: each part an identifier, the chat private or a group, the thread said or not there at all, and a role only where there may be one |
| Utf8.MarksAreDropped | apps/server/src/codex/adapter.ts:258-261 | A byte order mark in front of a written text is dropped, once, and everything behind it is read as it was |
| Utf8.StartsExactlyWhen | apps/server/src/codex/adapter.ts:258-261 | A byte is unreadable on its own if and only if no character is written in UTF-8 with it in front; otherwise as many bytes are awaited as such a character takes |
| Utf8.ContinuesExactlyWhen | apps/server/src/codex/adapter.ts:258-261 | A second byte is taken into a sequence if and only if some character is written with both in front |
| StableJsonUnique.EscapesAreExact | apps/server/src/efficiency/index.ts:541-552 | How a string is written, unit by unit: a surrogate pair as it is, a unit with a letter by its letter, any other control unit and a lone surrogate by its number, everything else as it is |
| Framing.TrimsExactly | apps/server/src/codex/adapter.ts:272-284 | A trimmed line is what lies between the white space at both ends |
| ToolCalls.DecisionsAreExact | apps/server/src/efficiency/index.ts:323-421 | Call by call, a result stands under its own id at its cost, and is admitted if and only if it is there in the form it is to be shown in, and fits its class's limit and what those admitted before it left of the turn |
| ToolCalls.AdmitsExactlyWhen | apps/server/src/efficiency/index.ts:447-464 | An identical call is admitted for the first time if and only if no record has it, and again if and only if its last attempt failed, a retry may help and there were no more attempts than retries |
| ToolCalls.TurnBalances | apps/server/src/efficiency/index.ts:323-421 | The reported counters are those of the decisions, and the classes add up to the totals |
| ToolCalls.ClassesAddUp | apps/server/src/efficiency/index.ts:323-421 | Over all decisions the classes' tokens add up to what the turn used, within its budget, and their calls to all results |
| ToolCalls.RetriesAreBounded | apps/server/src/efficiency/index.ts:447-464 | However long the call ledger runs, attempts at one call are numbered upward, at most one more than the retries, and all but the last have failed |
| AuthGuards.ApprovedOnlyWhileAlive | apps/server/src/auth/service.ts:321-408 | An approval admits only its own tuple, before it runs out, while its grant stands, and only the request that consumes it or rechecks what it admitted |
| AuthGuards.PrivateStaysOutOfGroups | apps/server/src/auth/service.ts:277-286 | A private Resource is never allowed in a group |
| AuthGuards.DelegationIsTheCallersOwn | apps/server/src/auth/service.ts:76-138 | The Task that limits an allowed request is the caller's own at the caller's scope, and the attempt's own where the Run is a Task step |
| AuthGuards.CompletionTakesEveryRead | apps/server/src/auth/service.ts:440-520 | Reads complete only all together: at most 128, all of the action's caller, each naming the decision that allowed it, each allowed again and marked with its classification, and so the action |
| AuthGuards.RefusedCompletionMarksNothing | apps/server/src/auth/service.ts:440-520 | Otherwise no decision becomes a source |
| AuthGuards.OnlyAllowsBecomeSources | apps/server/src/auth/service.ts:522-545 | In every history, whatever is asked to be marked, only an ALLOW is a source |
| AuthGuards.ApprovalsAreDeliberate | apps/server/src/auth/service.ts:922-950 | No step but an approval adds one, unconsumed and with time left, for the tuple of a live grant that asks for approval |
| AuthGuards.ApprovalsAreForGrantsThatAsk | apps/server/src/auth/service.ts:922-950 | In every history each approval belongs to a grant that asks for approval |
| AuthGuards.ProvisioningNeverRewritesResources | apps/server/src/auth/service.ts:708-752 | Provisioning leaves each entry's Resource as described and no stored one changed; one conflict refuses them all |
| PolicyConditions.AcceptsExactlyConditions | apps/server/src/auth/policy-condition.ts:68-90 | The shape check, which counts fields instead of naming them, accepts a JSON value if and only if it is what exactly one well-formed condition is written as |
| PolicyConditions.StoredRoutesReadBack | apps/server/src/auth/policy-condition.ts:92-115 | Whatever route a request states, the column it is stored in reads back as the condition the ledger records; an omitted route reads back as none, a malformed one as unknown |
| PolicyConditions.ReadRoutesAreStoredAlike | apps/server/src/auth/policy-condition.ts:92-115 | Stating again what was read from a column stores that column again |
| PolicyConditions.RecalledAnswersDifferExactlyWhen | apps/server/src/auth/policy-condition.ts:117-167 | The recalled route answers differently from the stated one if and only if the claim was malformed and the action is not one on a group |
| PolicyConditions.AllowedRoutesAreRecalled | apps/server/src/auth/service.ts:316-324 | A request that was allowed is recalled by a route with the same answer in every environment, for every caller and Resource |
| MemoryPromotions.PromotionHonoursItsGuards | apps/server/src/learning/store.ts:1252-1300 | A promotion that goes through found the memory it named, in the version it named, about the same thing; one that retires found something, and an extractor's named it |
| MemoryPromotions.PromotionComesTo | apps/server/src/learning/store.ts:1199-1343 | A promotion makes a new memory where nothing matches; otherwise it ends the match, replaces it by a successor that lists it, or merges as the strategy says |
| MemoryPromotions.SupersedingTakesOver | apps/server/src/learning/store.ts:1606-1702 | An explicit correction needs a current memory about the same thing, and its row lists that memory and all it listed |
| MemoryPromotions.PromotingTwiceIsPromotingOnce | apps/server/src/learning/store.ts:1210-1221 | Promoting again, whatever happened in between, changes nothing and gives the same memory |
| MemoryPromotions.CandidatesStayAlways | apps/server/src/learning/store.ts:501-585 | In every history a candidate is never lost, never loses a source, and once reviewed never changes |
| MemoryPromotions.NoProposalIsLost | apps/server/src/learning/store.ts:501-585 | What was proposed stands under the candidate it was answered with, with all its sources, however much happens |
| MemoryPromotions.SupersededStaysListed | apps/server/src/learning/store.ts:1157-1197 | What a memory has superseded stays on its list through every history |
| MemoryPromotions.EditsKeepTermsUnlessTold | apps/server/src/learning/store.ts:1522-1566 | An edit reaches only a current memory and moves its deadline only when it says so |
| MemoryPromotions.FeedbackIsNeverLost | apps/server/src/learning/store.ts:1704-1810 | However much happens after feedback went through, its sources are on the candidate, and on the memory it was promoted to by then, if any |
| MemoryPromotions.CorrectionsAreTheContradicted | apps/server/src/learning/store.ts:1704-1810 | After any history a candidate is a correction if and only if it was one or feedback in that history that went through contradicted it |
| MemoryPromotions.ContradictedCandidatesNeverLaunder | apps/server/src/learning/store.ts:1204-1343 | However much happens after a silent candidate was contradicted, and by whatever strategy it is promoted in the end, the memory it corrects keeps its deadline and its sensitivity |
| ProfilesOrigins.SecretsStayWithTheirOrigin | apps/server/src/config/model-profiles.ts:266-358 | In every history of a store opened from any model file with a slot per profile, or any channel file that reads, a secret in use belongs to exactly one profile, at the origin it was supplied for or the file had it at, and after a save no unused secret is stored |
| ProfilesOrigins.SecretsStayFromTheBeginning | apps/server/src/config/model-profiles.ts:266-358 | The same for every stored secret of a store that started without a file |
| ProfilesOrigins.ModelSavesLeaveOthersAlone | apps/server/src/config/model-profiles.ts:330-358 | A save leaves no unreferenced secret and no other profile or secret changed |
| ProfilesOrigins.ChannelSavesLeaveOthersAlone | apps/server/src/config/channel-profiles.ts:275-306 | The same for channels |
| ProfilesOrigins.ModelSavesDoAsAsked | apps/server/src/config/model-profiles.ts:266-358 | After a save the profile is used with exactly the secret the save asked for, at the saved origin; keeping one across origins is refused |
| ProfilesOrigins.ChannelSavesDoAsAsked | apps/server/src/config/channel-profiles.ts:246-307 | The same for a channel, which a veto leaves as it was |
| ProfilesOrigins.SlotsStayApartExactlyWhen | apps/server/src/config/model-profiles.ts:166-197 | A model store keeps every profile on a slot of its own through every history if and only if the file it was opened from does |
| ProfilesOrigins.SharingLastsExactlyWhile | apps/server/src/config/model-profiles.ts:266-358 | Two model profiles use one secret in exactly the histories of a store whose file had them share it and in which every save of either kept its secret; no save makes two profiles share |
| ProfilesOrigins.SharedModelSlotsAreRead | apps/server/src/config/model-profiles.ts:166-197 | A model file that shares a slot is read, at two origins too, while a channel file like that is refused |
| ProfilesStores.ModelProfileStore.Save | apps/server/src/config/model-profiles.ts:266-358 | One serialized save; memory follows only when the file was written |
| ProfilesStores.ChannelProfileStore.Save | apps/server/src/config/channel-profiles.ts:246-307 | One serialized save, with its veto and its slot kept for life |
| ProfilesStores.ChannelProfileStore.Edit | apps/server/src/config/channel-profiles.ts:310-361 | Setters touch neither endpoint nor slot |
| Paging.CursorsVisitEveryRowOnce | apps/server/src/conversation/store.ts:193-237 | Following cursors to null reads every row of a fixed table once and in order, whatever the page sizes |
| Paging.MatchingIsTheRest | apps/server/src/conversation/store.ts:1055-1059 | After the key of one row come exactly the rows behind it |
| Paging.QueryPage | apps/server/src/conversation/lifecycle.ts:698-718 | A page and its cursor from one row more than the page holds; sizes outside 1 to 100 are refused |
| Framing.ChunkingDoesNotMatter | apps/server/src/codex/adapter.ts:260-284 | Any two ways to cut the same stream that stay within the limit dispatch the same messages |
| Framing.ReaderFollowsTheText | apps/server/src/codex/adapter.ts:260-284 | While nothing trips, the dispatched messages are those of the whole text so far and the rest is what follows its last newline |
| Framing.TripsExactlyWhen | apps/server/src/codex/adapter.ts:262-271 | The limit trips if and only if some chunk and the unfinished line before it exceed it together |
| Framing.OneChunkMayTripWhereTwoPass | apps/server/src/codex/adapter.ts:262-271 | So tripping depends on the cut: two lines that pass one by one trip it together |
| Framing.BytesMayBeCutAnywhere | apps/server/src/codex/adapter.ts:258-284 | The bytes of a stream may be cut anywhere, inside a character too: any two ways that stay within the limit leave the same state with the same messages dispatched |
| Framing.WrittenLinesArrive | apps/server/src/codex/adapter.ts:258-284 | Text written in UTF-8 arrives as its lines, trimmed and without blank ones, however its bytes are cut |
| Utf8.DecodingJoins | apps/server/src/codex/adapter.ts:258-261 | Decoding chunk by chunk is decoding the whole, for any bytes, well formed or not |
| Utf8.WrittenIsRead | apps/server/src/codex/adapter.ts:258-261 | The streaming decoder of the Encoding standard reads back every text written in UTF-8, but for a byte order mark in front of it |
| Utf8.SizeCountsBytes | apps/server/src/codex/adapter.ts:262-264 | The length the limit is compared with is the number of bytes the text is written in |
| Framing.StdoutReader.OnData | apps/server/src/codex/adapter.ts:258-284 | One chunk of bytes of the handler |
| LifecycleRows.RunsMoveExactlyWhen | apps/server/src/conversation/lifecycle.ts:308-577 | In any state, whatever the event, a Run's row becomes what the event says if and only if everything the event asks for is there: the caller, the status, a listed edge, room in the Conversation, the lease; otherwise it stays |
| LifecycleRows.RunsArriveExactlyWhen | apps/server/src/conversation/store.ts:660-711 | Only accepting adds a Run, queued behind every other, for whom and from where it was asked |
| LifecycleRows.DeliveriesMoveExactlyWhen | apps/server/src/conversation/lifecycle.ts:399-683 | The same for a delivery's row: its Run's principal at its destination, its status, a listed edge, its item, its lease |
| LifecycleRows.DeliveriesArriveExactlyWhen | apps/server/src/conversation/lifecycle.ts:579-641 | Only creating adds a delivery, pending and as asked, for an external Run of the caller, to where the caller calls from, under a key of its own |
| LifecycleRows.ItemsChangeExactlyWhen | apps/server/src/delivery/attention.ts:10-55 | In any state of a history an item is added or changed exactly where an event says so, and then as the event says; a recovery files those of the first 1000 deliveries lacking one, interrupted sends first |
| LifecycleRows.RunLeasesChangeExactlyWhen | apps/server/src/conversation/lifecycle.ts:311-395 | A lease is handed out exactly by the claim that starts its Run, goes quiet while a settlement is under way, speaks again when that does not commit, and is silenced by one that commits, by a Run that has ended, and by a crash |
| LifecycleRows.DeliveryLeasesChangeExactlyWhen | apps/server/src/conversation/lifecycle.ts:426-450 | The same for the leases of deliveries |
| LifecycleRefusals.TransitionsSayWhy | apps/server/src/conversation/lifecycle.ts:454-495 | Which refusal a request to move a Run gets, as an if-and-only-if for each |
| LifecycleRefusals.SettlementsSayWhy | apps/server/src/conversation/lifecycle.ts:346-392 | The same for the settlement of a Run |
| LifecycleRefusals.DispatchFailuresSayWhy | apps/server/src/conversation/lifecycle.ts:499-542 | The same for a failed dispatch |
| LifecycleRefusals.CreationsSayWhy | apps/server/src/conversation/lifecycle.ts:579-641 | The same for a new delivery |
| LifecycleRefusals.SendsSayWhy | apps/server/src/conversation/lifecycle.ts:399-425 | The same for taking a delivery into sending, and for moving one by hand |
| AuthEvaluation.RoutesOpenExactly | apps/server/src/auth/policy-condition.ts:117-167 | A source route stands in nobody's way if and only if none is needed, or the group's policy, found under the claim's connection and group, has the claimed category or source class switched on for exactly that group's Resource and that action |
| AuthEvaluation.SwitchedOffMeansRefused | apps/server/src/auth/policy-condition.ts:151-167 | With the category off, or the policy gone, no evaluation by that route is allowed, whatever rows the ledger has |
| AuthEvaluation.AllowNeedsAnOpenRoute | apps/server/src/auth/service.ts:316-324 | Every allowed request went by a route that was open when it was made |
| AuthEvaluation.AllowedOutrightExactlyWhen | apps/server/src/auth/service.ts:271-324 | A request without a receipt is allowed by an allow row if and only if the sender is bound to that principal, the Resource exists and is not private in a group, delegation passes, such a row is live, and the route is open |
| AuthEvaluation.RefusalsAreExact | apps/server/src/auth/service.ts:271-324 | Which reason a refusal has, check by check over the tables |
| AuthEvaluation.ApprovedExactlyWhen | apps/server/src/auth/service.ts:358-408 | A request is let through on an approval if and only if it names one of its own tuple that is unconsumed, alive and of the row that asks for it |
| AuthEvaluation.CompletedExactlyWhen | apps/server/src/auth/service.ts:324-357 | A request is let through on a completed read if and only if the decision named stood for the same tuple and its row still stands |
| AuthEvaluation.EvaluationsAreFiled | apps/server/src/auth/service.ts:229-260 | What one evaluation appends: the request as asked, its verdict, its Run and Conversation, and no mark |
| AuthEvaluation.DelegatedExactly | apps/server/src/auth/service.ts:76-178 | A delegated request passes if and only if the Task that limits it is the caller's own at the caller's scope and every link to its root lists the permission |
| AuthPolicy.RevokesExactly | apps/server/src/auth/service.ts:754-920 | A revocation touches exactly the rows its selector names, spelled out over principal, Resource, action and scope, and leaves every other row as it was |
| AuthPolicy.SiblingsStayAllowed | apps/server/src/auth/service.ts:838-855 | A request that was allowed outright under a row the selector does not name is still allowed after the revocation, in particular another action on the same Resource |
| AuthPolicy.GrantsExactly | apps/server/src/auth/service.ts:708-752 | When a grant adds a row, and which |
| AuthPolicy.ApprovesExactlyWhen | apps/server/src/auth/service.ts:922-953 | When an approval is made, and for what |
| AuthPolicy.ProvisionedOwnersAreAllowed | apps/server/src/auth/service.ts:581-613 | After provisioning, each entry's action is the owner's by a live allow row, unless provisioning is initial and the tuple ever had a row, or the entry is a Task's, which the Task policy may allow; nothing but live allow rows of its entries is added and no earlier row changes |
| AuthPolicy.ProvisionsOneExactly | apps/server/src/auth/service.ts:581-613 | One entry is registered if and only if its Resource is new or stored as described, and granted if and only if it is not allowed already and the grant leaves room |
| AuthPolicy.BatchesGoThroughExactlyWhen | apps/server/src/auth/service.ts:544-613 | A batch changes anything if and only if it has at most 128 entries and all of them register, with what is stored and with each other |
| AuthCompletion.MarksLandExactly | apps/server/src/auth/service.ts:524-541 | A mark lands on the decision it names, if that allowed something and has none, and nowhere else |
| AuthCompletion.CompletesExactlyWhen | apps/server/src/auth/service.ts:440-520 | Reads are completed if and only if each receipt vouches for its read, no read needs what it cannot have, and the dependent action is allowed |
| AuthCompletion.ClassificationIsExact | apps/server/src/auth/service.ts:196-206 | Which actions count as reading content, by the last part of their name and the kind of Resource |
| ProvenanceDependencies.WorkersPassExactlyWhen | apps/server/src/conversation/store.ts:1297-1345 | A worker's result is given if and only if it is there, its Task and the worker may be read now, each of its permissions is a source of content that may be read now, and its origin may be inherited |
| ProvenanceDependencies.WorkersReadsAreMarked | apps/server/src/conversation/store.ts:1297-1345 | Then the transaction allowed task:read and worker:read on the worker's Task and the read of each of its permissions, and each of these decisions stands marked as a content source on the reader |
| ProvenanceDependencies.ChildrenPassExactlyWhen | apps/server/src/conversation/store.ts:1380-1480 | The same for a child Task's result |
| ProvenanceDependencies.RunsPassExactlyWhen | apps/server/src/conversation/store.ts:1480-1594 | The same for another Run's result |
| ProvenanceDependencies.InheritsExactlyWhen | apps/server/src/auth/source-dependencies.ts:63-90 | Sources are inherited if and only if everything marked on those Runs may be read now, and there are at most 128 of them |
| ProvenanceDependencies.OriginsAreExact | apps/server/src/auth/source-dependencies.ts:28-53 | The Runs a Task's content came from are those of every Task on its way up, and are known if and only if there is such a way, of at most five Tasks on file |
| ProvenanceDependencies.StoppedReadsStayUnmarked | apps/server/src/conversation/store.ts:1380-1594 | A dependency refused for what it inherits leaves its own reads on record, but marks none of them |
| ProvenanceLoads.StepsLoadExactlyWhen | apps/server/src/conversation/store.ts:1210-1594 | A Task step is given its input if and only if its origin is known and may be inherited and every dependency passes, all as the ledger stands when the load begins, whatever the order of the dependencies and whatever the load records and marks on the way |
| ProvenanceLoads.HistoryIsExact | apps/server/src/conversation/store.ts:1598-1722 | A Run's history, as the ledger stands when it is loaded: of the at most 256 newest turns that may come up, newest first, each one that may be told and still fits, with those that only lack room named; it says so if and only if anything was left out for number or room |
| ProvenanceLoads.InputsAreGivenExactlyWhen | apps/server/src/conversation/store.ts:1125-1240 | Who gets the input of a Run and what is in it, as an if-and-only-if; a load that fails leaves nothing behind |
| ProvenanceHistory.NewestIsFound | apps/server/src/conversation/store.ts:1628-1631 | The delivery shown is the last of that Run at the reader's own location, and there is none exactly when none was sent there |
| ProvenanceHistory.AnswersAreExact | apps/server/src/conversation/store.ts:1680-1693 | What a reader is shown as an answer: what was sent last to where the reader is, or else, to the principal it was made for, an answer that did not fail and says something |
| ProvenanceHistory.HistoryReadsInOrder | apps/server/src/conversation/store.ts:1714-1740 | What a Run is given reads as it was said: question and answer in turn, each exchange from a later turn than the one before |
| ProvenanceHistory.LoadedHistoriesAlternate | apps/server/src/execution/model-adapter.ts:61-77 | Such a history is never refused by the pairing of messages before the model |
| ProvenanceGate.DeliveriesPassMarkByMark | apps/server/src/conversation/lifecycle.ts:155-200 | A delivery passes if and only if the Run is the caller's own and, mark by mark, the caller may still do what the decision allowed under the route it was recorded with, and send what gave content; mere access needs no sending |
| ProvenanceReaders.ConversationReader.LoadRunInput | apps/server/src/conversation/store.ts:1125-1770 | The whole load, from the Run's own recheck to what is told |
| ProvenanceReaders.ConversationReader.SayHistory | apps/server/src/conversation/store.ts:1714-1740 | The loop that turns exchanges read newest first into messages told oldest first |
| ConversationsRows.MessagesAreAcceptedExactlyWhen | apps/server/src/conversation/store.ts:488-711 | In every history: a new message is accepted if and only if it is allowed and its sender is bound; its Run goes to the sender's own Conversation at a private location, to the one a group location stands for, or to a new one, with every table after it; a known message is answered with its first Run if and only if its sender is still bound to that Run's principal, and changes nothing |
| ConversationsRows.StepRunsAreGivenExactlyWhen | apps/server/src/conversation/store.ts:716-933 | When an attempt gets a Run, which, and what is stored |
| ConversationsRows.BindingsReachOneSender | apps/server/src/identity/service.ts:56-101 | A binding reaches one sender and no other, and nothing that was stored moves with it |
| MemoryRows.PromotesExactly | apps/server/src/learning/store.ts:1199-1343 | A pending candidate is promoted if and only if what it asks for is met, over the rows alone; then every row is determined: the one that ran out noted, the matched one ended, replaced by a successor that says what the candidate says, or merged as the strategy has it, or else a new one |
| MemoryRows.SettlesExactlyWhen | apps/server/src/learning/store.ts:1157-1343 | The same for the row a candidate matches, by strategy |
| MemoryRows.MatchIsExact | apps/server/src/learning/store.ts:1226-1252 | Which row a candidate matches: the current one it names, or where it names none the one that says the same |
| MemoryRows.PersistsExactlyWhen | apps/server/src/learning/store.ts:1099-1155 | A row is stored with the sources it has and those it brings, at most 128, unless another active row says the same |
| MemoryRows.InsertsExactly | apps/server/src/learning/store.ts:501-585 | When a proposal is stored on its own, and when it adds its sources to a pending one that says the same |
| MemoryEdits.SupersedesExactly | apps/server/src/learning/store.ts:1606-1702 | An explicit correction goes through if and only if it is about a current memory on the same subject, the sources of both have room, and nobody else says what it says; then the new row says what the correction says, with the old row's terms where it is silent, and the old row is retired and keeps all else |
| MemoryEdits.UpdatesExactly | apps/server/src/learning/store.ts:1522-1566 | When an edit goes through, and the row after it |
| MemoryEdits.ConfirmsExactly | apps/server/src/learning/store.ts:1345-1397 | The Owner's promotion goes through if and only if the promotion itself does, and leaves what it leaves, dated now |
| MemoryEdits.OnlyPendingOnesArePromoted | apps/server/src/learning/store.ts:1210-1221 | A promotion already made is answered with its memory; a rejected candidate is promoted by nothing |
| MemoryEdits.FeedbackExactly | apps/server/src/learning/store.ts:1704-1810 | Feedback reaches only a pending candidate with room for its sources, and only a contradiction changes its kind |
| MemoryEdits.UniqueHoldsEachOnce | apps/server/src/learning/store.ts:310-315 | The list of what was superseded holds each row once |
| MemoryEdits.UniqueKeepsOrder | apps/server/src/learning/store.ts:310-315 | In the order of first mention, whatever is appended |
| ProfilesRows.ModelsAreSavedExactlyWhen | apps/server/src/config/model-profiles.ts:266-358 | A model profile is saved if and only if there is room for it and no secret would follow it to another origin; then it is last, as given, on the slot it had, a new one or none, the others are as they were, and exactly the secrets still named are stored; what was written can always be read back |
| ProfilesRows.ChannelsAreSavedExactlyWhen | apps/server/src/config/channel-profiles.ts:246-307 | The same for a channel, which keeps its slot for life and which nobody may object to |
| ProfilesRows.ChannelsAreSetExactlyWhen | apps/server/src/config/channel-profiles.ts:310-361 | A setter reaches one channel that is known and changes nothing of it but what it sets |

## Left out

- SQL, libSQL transactions, schema migration and archiving; archived decisions stay visible to every reader modelled here.
- HTTP, WebSockets, the command line, process spawning, file writes and locks, Markdown, images, screening and scoring.
- `listConversations`, which filters rows after its LIMIT and so does not page exactly.
- Identifier and field validation (`requireIdentifier`, `boundedText`, `validateCandidate`): inputs are taken to be valid, except the parts of a policy condition.
- Literal-capture proof of legacy memories (`isLiteralCurrentCapture`) and verified QQ imports: a legacy row says what its evidence and its Runs prove, and whether it is proven at all.
- The bodies of memories: `deepMerge` is an argument of the promotion; confidence, evidence lists, freshness and retention scores are not modelled.
- The text of a stored policy condition: `policy_conditions.dfy` starts from the value JSON.parse returns, and the records elsewhere hold the condition it stands for, so a row whose text was damaged from outside is not among them.
- The Task, long-work and Temporal stores: Tasks, links, steps and attempts are tables that other transactions may change at will.
- The tool-specification checks of `authorizeRun` for Task steps, and the location and owner checks of `authorizeConversation` outside `conversations_model.dfy`.
- Decision order under SQL without ORDER BY: the model takes row order where the code leaves it open; `MemorySources.UnionLearningSources` keeps it open.
- LifecycleStores.LifecycleStore.CommitSettleDelivery: takes for granted that a delivery's Run is stored, as the foreign key does.
- LifecycleStores.LifecycleStore.RecordAttention: does not model the item's summary text.
- ConversationsStores.ConversationStore.AcceptIncoming: does not model attachments, execution references and message text.
- ProvenanceReaders.ConversationReader.ReadDependency: takes from its argument whether the stored result exists and whether its Run's own recheck passed; its text and size limits are not modelled.
- ProvenanceLoads.StepsLoadExactlyWhen: leaves out a step whose own Run is among the Runs it depends on; what it marks for one dependency would count for the next, and the order would matter.
- Paging.QueryPage: takes the rows in key order, as ORDER BY gives them, and the cursor as the pair it encodes, without the base64url text and its length limit.
- Framing.StdoutReader.OnData: leaves out the JSON parsing of a dispatched line and the killing of the process after the limit trips.
- ProfilesStores.ModelProfileStore.Save: an endpoint is its origin and the rest as one text; the merge of optional fields and URL parsing are outside the model.
