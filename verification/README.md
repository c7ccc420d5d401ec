# ComanView protocols and money: a Dafny model

A point-of-sale suite keeps several small protocols honest by hand: a till refreshes its catalog while the
source keeps changing, an administration panel shows nothing it read before its own last command, tickets are
printed at most once, a device keeps its pairing, and money is rounded once. This project models those parts
and proves what they promise over every run, every interleaving and every input.

Each protocol has the same shape. A class holds the fields the source updates and has one method for each
synchronous stretch of code between two awaits; its `ensures` ties the new state to a specification function.
The specification functions are then run: a state machine interleaves them with everything the environment may
do, with a history beside it, and the theorems are about all of its runs.

| files | what they model |
|---|---|
| `CatalogController`, `CatalogRuns`, `CatalogCalls`, `CatalogHistory`, `CatalogFollowUp` | the catalog refresher of the client SDK: against a source that answers anything, what its calls leave behind, against a real source with versions, and which calls are followed up |
| `AdministrationResources`, `ResourceRuns`, `AdministrationController`, `PanelRuns`, `PanelLoads` | the panel's resource cache, loads, replies, navigation and acknowledged commands in any order, and what a load asks for and shows |
| `AdministrationDrafts`, `DraftRuns`, `AssignmentCommands` | the panel's drafts with the step behind each part of a record, and the identities of its commands |
| `Rounding`, `Tax`, `MoneyText`, `CashTender` | half-up rounding, line tax, the money field and the quick-cash stack |
| `JsonText`, `JsonReader`, `CanonicalJson`, `JsonSpelling` | JSON printing, a reader that undoes it, the canonical catalog text, and its spelling unit by unit |
| `DeviceStore`, `DeviceHistory`, `UuidV7` | the browser's identity and pairing store, where its contents come from, and device identifiers |
| `TcpPrinter`, `PrintQueue`, `PrintWorker`, `PrintRuns`, `PrintHistory` | a printer session, the persistent queue, the worker, the shop they form together, and the history behind each job |

## Assumptions

- Every change of the catalog moves the source's stamp strictly up (epoch first, then generation), and every
  read is the source's value at one instant between call and reply. Only `CatalogHistory` and `CatalogFollowUp` need this;
  `CatalogRuns` lets the source answer anything.
- A read of the catalog source does not call the controller back before it returns its promise.
- Every resource loader returns a new promise; command, device and draft identities from the generator are new.
- A device store transaction is atomic.
- A destroyed socket sends nothing, one process works the print queue at a time, and print jobs are never deleted.
- Numbers inside canonical JSON are safe integers, and objects have each key once.

## What the proofs found

- An accepted invalidation, with a target or without, or a forced check is not always followed up by itself. It is if
  and only if the controller is idle, or already has the newest version, or the running refresh can still read it: it
  waits for its first stamp, or has an attempt left, or its first stamp already was the newest one. Otherwise, as in
  the third attempt on an older stamp or after the last one, the refresh ends dirty and behind with nothing scheduled,
  and the next check has to come from elsewhere (`CatalogFollowUp.AcceptedCallIsFollowedUp`;
  `CatalogRuns.LateInvalidationWaitsForACheck` is a run).
- No print job that was sent comes up for another attempt if and only if no delivery is misfiled: the mark after a
  delivery sits inside the `try` whose `catch` schedules retries, so when that mark throws, the next one does not and
  attempts remain, the delivered ticket is filed as failed and printed again (`PrintRuns.SentJobsNeverWaitExactly`,
  `PrintRuns.ResentExactlyWhenMisfiled`, `PrintRuns.MisfiledDeliveryPrintsTwice`).
- The end callback of the socket ignores its argument, so a write that ends with an error counts as delivered
  (`TcpPrinter.FailedWriteCountsAsDelivered`). An adapter that looked at it would answer differently if and only if
  the event that decides the call is an end callback with an error, and its answer would be in doubt
  (`TcpPrinter.ErrorsGoUnheeded`). Nothing is printed twice because of it.
- Taking tax out of a total and adding it back is off by at most one unit for all totals exactly up to 20,000
  basis points (`Tax.OneUnitBoundIsTight`).
- The till's percentage preview agrees with the checked calculation wherever that accepts, but is half-up for
  negative products only in the cases of `Rounding.PreviewIsHalfUpExactly`.
- A quick-cash total over the safe bound no longer parses, and the next tap starts again from zero
  (`CashTender.QuickCashStack`).
- The device store keeps a pairing on the stored device, over every interleaving of tabs, if and only if each
  unconditional identity write meets no pairing of another device. The applications do such writes: a tab that missed
  a rotation renames its old identity, and two tabs can both create the first one; both orphan a pairing
  (`DeviceStore.StaleRenameOrphansPairing`, `DeviceStore.RacingCreationsOrphanPairing`).

## Model

| member | source | states |
|---|---|---|
| CatalogController.CatalogInvalidationController.constructor | packages/client-sdk/src/catalogInvalidation.ts:14-36 | a new controller has no stamp, no snapshot and nothing to do |
| CatalogController.CatalogInvalidationController.Invalidate | packages/client-sdk/src/catalogInvalidation.ts:37-50 | the target only moves up; what is already current is ignored; otherwise the controller is dirty and schedules at most one microtask, none while running |
| CatalogController.CatalogInvalidationController.Check | packages/client-sdk/src/catalogInvalidation.ts:51-67 | a forced check drops the current stamp; at most one refresh runs; nothing happens after stop |
| CatalogController.CatalogInvalidationController.RunMicrotask | packages/client-sdk/src/catalogInvalidation.ts:45-48 | the scheduled microtask is an unforced check |
| CatalogController.CatalogInvalidationController.Stop | packages/client-sdk/src/catalogInvalidation.ts:95-97 | stop changes nothing but the flag |
| CatalogController.CatalogInvalidationController.Iterate | packages/client-sdk/src/catalogInvalidation.ts:70-71 | the loop head starts an attempt or, after three or after stop, ends the refresh |
| CatalogController.CatalogInvalidationController.ResumeWithState | packages/client-sdk/src/catalogInvalidation.ts:72-77 | a lagging first stamp costs an attempt, an unchanged one ends the refresh, another one starts the reads |
| CatalogController.CatalogInvalidationController.ReceiveCategories | packages/client-sdk/src/catalogInvalidation.ts:78-81 | the categories are kept until the products are there |
| CatalogController.CatalogInvalidationController.ReceiveProducts | packages/client-sdk/src/catalogInvalidation.ts:78-81 | the products are kept until the categories are there |
| CatalogController.CatalogInvalidationController.ResumeIfComplete | packages/client-sdk/src/catalogInvalidation.ts:78-82 | the second stamp is read only once both resources answered |
| CatalogController.CatalogInvalidationController.ResumeWithRecheck | packages/client-sdk/src/catalogInvalidation.ts:82-91 | a snapshot is handed out exactly when the stamp did not move, is not behind the target and nobody stopped |
| CatalogController.CatalogInvalidationController.ResumeAfterApply | packages/client-sdk/src/catalogInvalidation.ts:91-93 | a call made during apply costs another attempt |
| CatalogController.CatalogInvalidationController.Throw | packages/client-sdk/src/catalogInvalidation.ts:72-91 | a refused read or a throwing apply leaves everything but the frame as it was |
| CatalogController.CatalogInvalidationController.HandleRejection | packages/client-sdk/src/catalogInvalidation.ts:59-62 | a failure leaves the controller dirty and is reported unless stopped |
| CatalogController.CatalogInvalidationController.HandleSettlement | packages/client-sdk/src/catalogInvalidation.ts:63-65 | running is cleared last |
| CatalogRuns.NoForgottenInvalidation | packages/client-sdk/src/catalogInvalidation.ts:37-93 | over every run: when nothing runs and nobody stopped, the controller is dirty or current is at least every target ever accepted |
| CatalogRuns.MonotonePublication | packages/client-sdk/src/catalogInvalidation.ts:39-91 | over every run: applied stamps never go back behind an earlier stamp, nothing is applied after stop, target is the maximum of all targets and applied stamps, and a stamp is applied twice only after a forced check |
| CatalogRuns.RefreshIsBounded | packages/client-sdk/src/catalogInvalidation.ts:68-94 | each resumption strictly nears the end of the refresh and no call pushes it back |
| CatalogRuns.LateInvalidationWaitsForACheck | packages/client-sdk/src/catalogInvalidation.ts:43-65 | one family of the calls left behind: a run that ends idle, dirty and behind its target with nothing scheduled |
| CatalogCalls.MicrotaskWaitsExactly | packages/client-sdk/src/catalogInvalidation.ts:37-50 | over every run: a microtask is waiting if and only if some accepted invalidation found the controller neither running nor waiting, and no microtask has run since |
| CatalogCalls.EveryFailureIsCaught | packages/client-sdk/src/catalogInvalidation.ts:58-65 | over every run: failed reads and throwing applies have each had the catch handler, but for one whose handler runs next; none is left when the controller is idle |
| CatalogCalls.StoppedForGood | packages/client-sdk/src/catalogInvalidation.ts:52-97 | over every run from a stopped controller: no stamp or snapshot changes, no attempt begins, and an idle one only loses a waiting microtask |
| CatalogCalls.StoppedRecheckEnds | packages/client-sdk/src/catalogInvalidation.ts:82-83 | a stop seen at the second stamp ends the refresh and changes nothing else |
| CatalogHistory.RecheckSeesOneVersion | packages/client-sdk/src/catalogInvalidation.ts:72-90 | when the second stamp equals the first, all reads of the attempt saw one version of the source |
| CatalogHistory.SnapshotTruth | packages/client-sdk/src/catalogInvalidation.ts:68-93 | over every run: each applied snapshot is one whole version of the source, held at an instant of the attempt that published it |
| CatalogHistory.QuietIsDeterministic | packages/client-sdk/src/catalogInvalidation.ts:68-94 | with a still source and no calls there is one schedule only |
| CatalogHistory.QuietConvergence | packages/client-sdk/src/catalogInvalidation.ts:51-93 | from every reachable idle state, one undisturbed check, forced or not, ends clean with the source's contents in one attempt if and only if no newer target was announced; otherwise it stays dirty after three stamp reads; a forced check reads everything even when it is current |
| CatalogFollowUp.QuietEnds | packages/client-sdk/src/catalogInvalidation.ts:51-94 | from every state the invariant allows, with a source no target is ahead of, the undisturbed refresh ends, at the source's stamp and dirty exactly as its frame says |
| CatalogFollowUp.OnlyUntargetedCallsHaveCurrent | packages/client-sdk/src/catalogInvalidation.ts:37-56 | of those calls only an invalidation without a target can meet a controller that is at the source's stamp already |
| CatalogFollowUp.AcceptedCallIsFollowedUp | packages/client-sdk/src/catalogInvalidation.ts:37-94 | from every reachable state, an accepted invalidation, with a target or without, or a forced check brings the source's contents without another call if and only if the controller is idle, has them, or its frame can still read them; it ends dirty exactly when a running refresh has no attempt left or returns at its first stamp because it is current; nothing new is scheduled while one runs |
| AdministrationResources.KeysFor | apps/pos/src/administrationModel.ts:61-64 | no section asks for a resource twice |
| AdministrationResources.ResourceCache.Invalidate | apps/pos/src/administrationModel.ts:50-53 | values and registered requests are dropped |
| AdministrationResources.ResourceCache.BeginKey | apps/pos/src/administrationModel.ts:75-83 | a hit, a registered request to share, or one new request; refetching drops both first |
| AdministrationResources.ResourceCache.Load | apps/pos/src/administrationModel.ts:54-83 | a load starts its resources in order, and a section that may not be opened touches nothing |
| AdministrationResources.ResourceCache.Resume | apps/pos/src/administrationModel.ts:84-89 | only the registered request writes its value, and it leaves either way |
| ResourceRuns.DeskFollowsCache | apps/pos/src/administrationModel.ts:73-83 | the history of requests adds nothing to what the cache does |
| ResourceRuns.BeginKeysKeepsInv | apps/pos/src/administrationModel.ts:73-83 | starting a load keeps every cached value and registered request traceable to a request made since its resource was last dropped |
| ResourceRuns.ClearedKeepsInv | apps/pos/src/administrationModel.ts:50-53 | after invalidate no earlier request can count for any resource |
| ResourceRuns.ResumedKeepsInv | apps/pos/src/administrationModel.ts:84-89 | a late reply of a dropped request changes nothing |
| ResourceRuns.OneRequestAlive | apps/pos/src/administrationModel.ts:79-83 | of the requests made for a resource since it was last dropped, at most one has not failed |
| AdministrationController.Controller.Load | apps/pos/src/useAdministrationController.tsx:249-253 | each load takes the next sequence number before it touches the cache |
| AdministrationController.Controller.Finish | apps/pos/src/useAdministrationController.tsx:254-313 | only the latest load installs, and only resources that arrived |
| AdministrationController.Controller.Leave | apps/pos/src/useAdministrationController.tsx:336-338 | leaving makes every load under way stale |
| AdministrationController.Controller.Acknowledge | apps/pos/src/useAdministrationController.tsx:350-375 | the load after an acknowledgement starts from an empty cache, in the same turn |
| PanelRuns.PostAcknowledgementReadsOnly | apps/pos/src/useAdministrationController.tsx:249-375 | over every run: what is installed after an acknowledgement was requested after it, nothing opened before the panel was left is installed, loads install in their own order, and each value on show is the reply it is said to be |
| PanelRuns.NoStaleCacheWrite | apps/pos/src/administrationModel.ts:48-98 | over every run: a cached value is a successful reply requested since the resource was last dropped, failures are never cached, one live request at a time |
| PanelRuns.RefetchReadsAnew | apps/pos/src/administrationModel.ts:76-83 | from every reachable state, a fresh load waits, for each of its resources, for a request that did not exist before and was made for that resource at the moment of the load |
| PanelLoads.AnsweredRequestIsGone | apps/pos/src/administrationModel.ts:84-89 | over every run: once a waiter has gone on with the reply to a request, good or bad, that request is never registered again, whatever happens next |
| PanelLoads.FailureIsAskedAgain | apps/pos/src/administrationModel.ts:79-89 | over every run: when a registered request fails, the next load of its resource makes a new one |
| PanelLoads.LoadAsksForItsSection | apps/pos/src/administrationModel.ts:60-64 | a load takes the next sequence number; with the permission it asks for exactly the resources its section needs, products only with the catalog permission, without it for nothing |
| PanelLoads.LatestLoadIsShown | apps/pos/src/useAdministrationController.tsx:253-313 | over every run: the latest load, when finished, shows every reply that arrived and keeps the rest; any other load changes nothing on show |
| PanelLoads.OnlyFinishShows | apps/pos/src/useAdministrationController.tsx:249-313 | no other step changes what is shown |
| AdministrationDrafts.AdministrationDraftStore.Observe | apps/pos/src/administrationModel.ts:113-135 | a new record starts clean or pending; an old one goes through the next row |
| AdministrationDrafts.AdministrationDraftStore.Reobserve | apps/pos/src/administrationModel.ts:115-124 | a pending draft keeps its base; one whose text is its initial text again stops being pending and takes the new base |
| AdministrationDrafts.AdministrationDraftStore.Mark | apps/pos/src/administrationModel.ts:136-140 | the key is pending, its record dirty |
| AdministrationDrafts.AdministrationDraftStore.Saved | apps/pos/src/administrationModel.ts:141-151 | the record is clean and starts from its current value; no key or an empty one does nothing |
| AdministrationDrafts.AdministrationDraftStore.Saving | apps/pos/src/administrationModel.ts:152-155 | only the saving flag of that record changes |
| AdministrationDrafts.AdministrationDraftStore.Rebase | apps/pos/src/administrationModel.ts:156-162 | the base revision moves and the conflict is over |
| AdministrationDrafts.AdministrationDraftStore.Conflict | apps/pos/src/administrationModel.ts:163-166 | only the conflict flag of that record changes |
| AdministrationDrafts.DirtyMeansPending | apps/pos/src/administrationModel.ts:113-166 | over every run: a record is dirty exactly when its key is pending, and a clean one has equal initial and current values |
| AdministrationDrafts.StepKeepsBase | apps/pos/src/administrationModel.ts:115-166 | exactly which step ends a pending draft, and that only a rebase moves its base |
| AdministrationDrafts.PinnedDraft | apps/pos/src/administrationModel.ts:113-166 | while a draft stays pending, its base revision is that of the last rebase and its initial value never changes |
| AdministrationDrafts.ConflictUntilResolved | apps/pos/src/administrationModel.ts:113-166 | over every run: a record is in conflict if and only if a conflict was raised on it that neither a rebase nor a save has ended since |
| DraftRuns.PendingExactly | apps/pos/src/administrationModel.ts:113-151 | over every run: a draft is pending if and only if some mark of it has no later save of it and no later observation of its initial text |
| DraftRuns.PartComesFrom | apps/pos/src/administrationModel.ts:113-166 | over every run: section, base revision, initial value, current value and saving flag of a record are each what the last step that sets them made them |
| DraftRuns.RecordedExactly | apps/pos/src/administrationModel.ts:113-135 | a record is there if and only if its key was observed |
| AssignmentCommands.AssignmentCommandTable.CommandId | apps/pos/src/useAdministrationController.tsx:66-70 | the same intent of a draft gets its identity again, another intent a new one |
| AssignmentCommands.AssignmentCommandTable.Acknowledge | apps/pos/src/useAdministrationController.tsx:352 | an acknowledged draft forgets its identity |
| AssignmentCommands.OneIdentityPerCommand | apps/pos/src/useAdministrationController.tsx:65-70 | over every run: two submissions share an identity if and only if they are the same draft and intent with no acknowledgement or other intent of that draft in between |
| Rounding.RoundingSpecification | packages/money/src/rounding.ts:9-26 | the result is r exactly when r is the half-up integer within the bound, for every numerator and denominator |
| Rounding.Refusals | packages/money/src/rounding.ts:9-36 | which refusal comes for which input, the numerator before the denominator and the amount before the rate |
| Rounding.HalfUpIsUnique | packages/money/src/rounding.ts:17-19 | there is one half-up integer |
| Rounding.HalfUpIsNearest | packages/money/src/rounding.ts:17-19 | no integer is closer, and one equally close is smaller: a half goes up |
| Rounding.RoundingIsMonotone | packages/money/src/rounding.ts:9-26 | a smaller numerator never rounds to more, and is never refused instead |
| Rounding.PreviewRefinesCalculation | apps/pos/src/posLogic.ts:225-228 | the till's preview equals the checked calculation on all its inputs, and exceeds the bound exactly when that refuses |
| Rounding.PreviewIsHalfUpExactly | apps/pos/src/posLogic.ts:225-228 | for all integers, the preview is half-up if and only if the product is at least minus one half unit or the division is exact, and one too high otherwise |
| Tax.AddedSpecification | packages/money/src/tax.ts:17-32 | added tax is the half-up share of the base; both overflows are refused, nothing else |
| Tax.IncludedSpecification | packages/money/src/tax.ts:17-32 | included tax is never refused; base and tax are non-negative, add up to the total, and the tax is the half-up share |
| Tax.TaxRefusals | packages/money/src/tax.ts:17-20 | the amount is refused before the rate, each exactly when it is not a whole number from zero to 2^53 - 1 |
| Tax.IncludedTax | packages/money/src/tax.ts:17-32 | on accepted amounts the included mode always has a value |
| Tax.ExactRoundTrip | packages/money/src/tax.ts:23-32 | taking the tax out of a total made by adding it gives back the same base and tax, for every input that adds |
| Tax.IncludedIsMonotone | packages/money/src/tax.ts:25-32 | a larger total has at least the base and at least the tax of a smaller one |
| Tax.OneUnitBound | packages/money/src/tax.ts:25-32 | total to base to total drifts by less than 1 + rate/20,000 units, at most one up to 20,000 basis points; only a total at the very bound can be refused |
| Tax.OneUnitBoundIsTight | packages/money/src/tax.ts:25-32 | the drift stays within one unit for all totals if and only if the rate is at most 20,000 basis points |
| MoneyText.ParseIsTheGrammar | apps/pos/src/posLogic.ts:209-217 | a text parses to an amount if and only if it is space, digits, an optional point or comma with at most two digits, space, with that value within the bound |
| MoneyText.PrintedForm | apps/pos/src/posLogic.ts:219-223 | an amount prints as its units without a zero in front, a point, and two digits of cents |
| MoneyText.NegativeForm | apps/pos/src/posLogic.ts:219-223 | a negative amount prints its units rounded down and its cents with a sign of their own |
| MoneyText.EveryDebt | apps/pos/src/posLogic.ts:219-223 | and every negative amount is of that form |
| MoneyText.PrintThenParse | apps/pos/src/posLogic.ts:209-223 | printed text parses back exactly when the amount is neither negative nor over the bound, and is refused otherwise |
| MoneyText.ParseThenPrint | apps/pos/src/posLogic.ts:209-223 | printing a parsed amount and parsing again changes nothing, and two texts print alike exactly when they parse alike |
| CashTender.ReplayRefinesStack | apps/pos/src/cashTenderInput.ts:40-72 | after any taps and undos the whole state is that of a stack of the taps not undone |
| CashTender.QuickCashStack | apps/pos/src/cashTenderInput.ts:40-72 | with taps left the text parses to their sum if and only if the sum is within the bound; with none left the original state is back |
| CashTender.ExactStartsTheSameStack | apps/pos/src/cashTenderInput.ts:32-64 | the same from the exact-amount button |
| CashTender.UndoRestoresEverything | apps/pos/src/cashTenderInput.ts:40-64 | undo takes a tap back entirely exactly on states whose flag matches their history |
| CashTender.ReachedStatesUndo | apps/pos/src/cashTenderInput.ts:40-64 | and every reachable state is one of those |
| JsonReader.ValueReadsBack | packages/contracts/src/catalogPropagation.ts:98-104 | reading the JSON text of any value gives the value and stops right behind it |
| JsonReader.StringifyIsInjective | packages/contracts/src/catalogPropagation.ts:98-104 | different values have different JSON texts |
| JsonSpelling.EscapedIsSpelled | packages/contracts/src/catalogPropagation.ts:98-104 | every unit of every string is spelled as itself, as a backslash and a letter, or as a backslash, a u and four lower-case digits, each in its place (section 7 of RFC 8259, lone surrogates escaped) |
| JsonSpelling.UnchangedExactly | packages/contracts/src/catalogPropagation.ts:98-104 | a string comes out unchanged between its quotes if and only if it has no quote, no backslash, no control unit and no lone surrogate |
| JsonSpelling.NumberSpelling | packages/contracts/src/catalogPropagation.ts:98-104 | a number has a minus exactly below zero and no zero in front |
| JsonSpelling.Words | packages/contracts/src/catalogPropagation.ts:98-104 | the words null, true and false |
| JsonSpelling.StringMarks | packages/contracts/src/catalogPropagation.ts:98-104 | the quotes around a string |
| JsonSpelling.ArrayMarks | packages/contracts/src/catalogPropagation.ts:98-104 | the brackets and the comma of an array |
| JsonSpelling.ObjectMarks | packages/contracts/src/catalogPropagation.ts:98-104 | the braces, the comma and the colon of an object |
| JsonSpelling.LessByFirstDifference | packages/contracts/src/catalogPropagation.ts:101 | the order of keys is decided by the first unit in which they differ |
| JsonSpelling.IndexKeysAreNumerals | packages/contracts/src/catalogPropagation.ts:101 | the keys that come first in an object are exactly the numerals below 2^32 - 1, by their number |
| CanonicalJson.RebuiltOrder | packages/contracts/src/catalogPropagation.ts:99-101 | a rebuilt object lists array-index keys by number, then all others by code unit, with the same members |
| CanonicalJson.CanonicalTextPrintsNormal | packages/contracts/src/catalogPropagation.ts:98-104 | sorting on the way down prints the text of the value sorted bottom-up |
| CanonicalJson.CanonicalTextReadsBack | packages/contracts/src/catalogPropagation.ts:98-104 | reading the canonical text gives the normal value |
| CanonicalJson.CanonicalEncoding | packages/contracts/src/catalogPropagation.ts:98-104 | two values have the same canonical text if and only if they are equal up to key order at every depth |
| DeviceStore.NormalizedIsStable | packages/client-sdk/src/deviceIdentity.ts:165-173 | a normalised pairing is read back as it was written |
| DeviceStore.DeviceDatabase.MarkAuthorization | packages/client-sdk/src/deviceIdentity.ts:58-79 | only the authorization of the expected device changes; the return says whether it did |
| DeviceStore.DeviceDatabase.Save | packages/client-sdk/src/deviceIdentity.ts:84-99 | a pairing is written exactly when it is well formed, on the stored device, and the named pairing is the stored one |
| DeviceStore.DeviceDatabase.Clear | packages/client-sdk/src/deviceIdentity.ts:100-105 | the pairing goes unless another one was named; an empty name counts as none |
| DeviceStore.DeviceDatabase.RotateIdentity | packages/client-sdk/src/deviceIdentity.ts:111-140 | the expected device is replaced, keeping type and name, and its pairing goes with it |
| DeviceStore.ConditionalSave | packages/client-sdk/src/deviceIdentity.ts:93-98 | a late conditional save does nothing; one that goes through replaces exactly the pairing it named |
| DeviceStore.UncheckedIdentityWrites | packages/client-sdk/src/deviceIdentity.ts:55-140 | a transaction keeps the pairing where it belongs unless it saves another device, or clears the identity, over a stored pairing |
| DeviceStore.PairingBelongsToIdentity | packages/client-sdk/src/deviceIdentity.ts:55-140 | over every interleaving of all transactions from an empty store: a stored pairing is on the stored device all along if and only if no unconditional identity write met a pairing of another device |
| DeviceStore.RotatedDeviceStaysAway | packages/client-sdk/src/deviceIdentity.ts:55-140 | over every interleaving with new generated ids: a device id that was rotated away never comes back if and only if no tab saves it again |
| DeviceStore.RotatedAwayOnce | packages/client-sdk/src/deviceIdentity.ts:111-140 | and then no device id is rotated away twice |
| DeviceStore.RotatedDeviceIsInert | packages/client-sdk/src/deviceIdentity.ts:58-140 | in those runs, no mark, rotation or pairing for a device id that was rotated away changes anything |
| DeviceStore.StaleRenameOrphansPairing | apps/waiter/src/App.tsx:405-412 | the run in which a tab that missed a rotation renames its old identity: the pairing is orphaned and the old device is back |
| DeviceStore.RacingCreationsOrphanPairing | apps/waiter/src/App.tsx:154-155 | the run in which two tabs create the first identity and the earlier pairing is orphaned |
| DeviceHistory.NormalizeExactly | packages/client-sdk/src/deviceIdentity.ts:165-173 | exactly which stored values stand for which pairing: all fields strings, the device in either place, a missing status pending, four statuses |
| DeviceHistory.LastSetterDecides | packages/client-sdk/src/deviceIdentity.ts:55-140 | over every interleaving: the pairing, the device with its secret, its name and its authorization are each what the last transaction that sets them put there, or missing |
| DeviceHistory.SavedAsPlainRecord | packages/client-sdk/src/deviceIdentity.ts:88-98 | a pairing is written as a plain record, whatever shape it came in |
| UuidV7.Generate | packages/client-sdk/src/deviceIdentity.ts:164 | the loop over a byte array produces the laid-out identifier |
| UuidV7.UuidLayout | packages/client-sdk/src/deviceIdentity.ts:164 | dashes, version 7 and variant in their places (section 5.7 of RFC 9562), and the first twelve digits read back as the time |
| UuidV7.RandomDigits | packages/client-sdk/src/deviceIdentity.ts:164 | behind the time every digit but the version and the variant is the random one, in its place |
| UuidV7.IdentifiersCoincide | packages/client-sdk/src/deviceIdentity.ts:164 | two identifiers are equal if and only if their times and their 74 random bits are |
| UuidV7.LaterSortsLater | packages/client-sdk/src/deviceIdentity.ts:164 | an earlier time gives a lexicographically smaller text, whatever the random bytes |
| TcpPrinter.PrintSession.constructor | packages/printing/src/TcpPrinterAdapter.ts:48-70 | a session starts unconnected, unsettled, with the connect timer running |
| TcpPrinter.PrintSession.Settle | packages/printing/src/TcpPrinterAdapter.ts:54-61 | the first settlement wins, stops the timer and destroys the socket |
| TcpPrinter.PrintSession.OnConnect | packages/printing/src/TcpPrinterAdapter.ts:72-80 | connecting hands the payload over once, and not to a destroyed socket |
| TcpPrinter.PrintSession.OnError | packages/printing/src/TcpPrinterAdapter.ts:62-71 | an error is uncertain after connecting and safe before |
| TcpPrinter.PrintSession.OnTimeout | packages/printing/src/TcpPrinterAdapter.ts:66-78 | so is a timeout, if a timer is running |
| TcpPrinter.PrintSession.OnEnded | packages/printing/src/TcpPrinterAdapter.ts:79 | the end callback settles as delivered, with or without an error |
| TcpPrinter.OpenIsTruthful | packages/printing/src/TcpPrinterAdapter.ts:20-46 | a socket is opened exactly for a valid configuration and a ticket that renders; nothing is sent before |
| TcpPrinter.ReactKeepsTruth | packages/printing/src/TcpPrinterAdapter.ts:48-81 | after every event: "not started" means nothing was handed over, any other reply exactly one payload, and a settled call is final |
| TcpPrinter.FirstEventDecides | packages/printing/src/TcpPrinterAdapter.ts:48-81 | over every sequence of events: the reply is that of the first event that can end the call, classified by whether a connect came before it, and nothing later matters |
| TcpPrinter.DeliveredExactly | packages/printing/src/TcpPrinterAdapter.ts:48-84 | over every sequence of events: a call is delivered if and only if the event that decides it is an end callback |
| TcpPrinter.ErrorsGoUnheeded | packages/printing/src/TcpPrinterAdapter.ts:71-79 | over every sequence of events: heeding the error of the end callback would change the reply if and only if the deciding event is an end callback with an error, and then from delivered to uncertain |
| TcpPrinter.FailedWriteCountsAsDelivered | packages/printing/src/TcpPrinterAdapter.ts:79 | a connect and an end callback with an error make a delivery |
| PrintQueue.PrintJobRepository.Enqueue | packages/database/src/edge/repositories/PrintJobRepository.ts:57-83 | a command's jobs are inserted in order, known keys skipped, all or none |
| PrintQueue.PrintJobRepository.RecoverInterruptedJobs | packages/database/src/edge/repositories/PrintJobRepository.ts:144-155 | every job being sent is in doubt afterwards, no other job changes |
| PrintQueue.PrintJobRepository.ClaimNext | packages/database/src/edge/repositories/PrintJobRepository.ts:157-211 | the oldest claimable job is taken with one more attempt; none exactly when none is claimable |
| PrintQueue.PrintJobRepository.MarkDelivered | packages/database/src/edge/repositories/PrintJobRepository.ts:213-219 | that job is delivered and not due again |
| PrintQueue.PrintJobRepository.MarkFailed | packages/database/src/edge/repositories/PrintJobRepository.ts:220-226 | that job failed and is due when given |
| PrintQueue.PrintJobRepository.MarkUnknown | packages/database/src/edge/repositories/PrintJobRepository.ts:227-233 | that job is in doubt and not due again |
| PrintQueue.NextExists | packages/database/src/edge/repositories/PrintJobRepository.ts:160-175 | there is an oldest claimable job if and only if some job is claimable |
| PrintQueue.InsertKeepsKeys | packages/database/src/edge/repositories/PrintJobRepository.ts:57-83 | inserting keeps one job for each deduplication key, leaves old jobs alone, and afterwards every key of the command has its job |
| PrintQueue.RefusedExactly | packages/database/src/edge/repositories/PrintJobRepository.ts:57-83 | a command is refused if and only if one of its jobs, behind jobs that go through, has a new key and a used id or a missing target |
| PrintQueue.ResubmissionChangesNothing | packages/database/src/edge/repositories/PrintJobRepository.ts:80 | a command that comes again goes through and changes nothing |
| PrintWorker.PrintWorker.StartPolling | packages/printing/src/PrintWorker.ts:26-30 | the first start recovers interrupted jobs, a second one does nothing |
| PrintWorker.PrintWorker.StopPolling | packages/printing/src/PrintWorker.ts:34-37 | stop leaves the print in flight alone |
| PrintWorker.PrintWorker.ProcessNext | packages/printing/src/PrintWorker.ts:39-51 | at most one print in flight; the oldest job is claimed and either fails for good without a target or goes to a new session |
| PrintWorker.PrintWorker.Resume | packages/printing/src/PrintWorker.ts:51-75 | the reply decides the mark, a mark that throws lands in the catch clause, and the worker is free again |
| PrintRuns.NoDuplicateTransmission | packages/printing/src/PrintWorker.ts:39-76 | over every run that misfiles no delivery: of two print calls for one deduplication key the earlier sent nothing, and no call sends twice |
| PrintRuns.StatusTellsTheTruth | packages/database/src/edge/repositories/PrintJobRepository.ts:144-233 | over those runs: a job that is pending or due again was never sent, a delivered one was, a sent one is never claimable at any time, and calls and attempts stay within the maximum |
| PrintRuns.SentJobsNeverWaitExactly | packages/printing/src/PrintWorker.ts:39-76 | over every run, throwing marks included: no sent job ever comes up for another attempt if and only if no delivery is misfiled |
| PrintRuns.RetryExactlyWhenSafe | packages/printing/src/PrintWorker.ts:60-70 | with marks that go through, a print is filed as delivered, in doubt or failed exactly by its reply, and is due again if and only if nothing reached the printer and attempts remain, after a delay that grows with them |
| PrintRuns.ResentExactlyWhenMisfiled | packages/printing/src/PrintWorker.ts:50-71 | with marks that may throw, a sent job becomes claimable if and only if its delivery mark threw, the catch clause's mark did not, and attempts remain |
| PrintRuns.MisfiledDeliveryPrintsTwice | packages/printing/src/PrintWorker.ts:50-71 | a run in which one throwing mark prints a ticket twice |
| PrintRuns.SettledForGood | packages/database/src/edge/repositories/PrintJobRepository.ts:57-233 | over every run, throwing marks included: a job that is delivered, in doubt or out of attempts, and not in flight, never changes again |
| PrintHistory.DeliveredExactlyWhenFiled | packages/printing/src/PrintWorker.ts:50-59 | over every run, throwing marks included: a job is delivered if and only if some mark that went through followed a call that an end callback decided |
| PrintHistory.StatusComesFrom | packages/database/src/edge/repositories/PrintJobRepository.ts:57-233 | over every run: a job has the status and due time that the last move that touched it gave: a command, a claim, a filing or a recovery |
| PrintHistory.CallsComeFromTicks | packages/printing/src/PrintWorker.ts:39-51 | only a tick starts a call, one, for a job it claims whose target is there and active; it has a socket exactly for an address and a ticket that renders |
| PrintHistory.TickTakesTheOldest | packages/database/src/edge/repositories/PrintJobRepository.ts:160-174 | a tick of a free worker takes an oldest job of those pending or due |
| PrintHistory.FlightComesFrom | packages/printing/src/PrintWorker.ts:39-75 | over every run: the print in flight has the moment and the attempt of the last tick that started one |
| PrintHistory.PollsExactly | packages/printing/src/PrintWorker.ts:26-37 | over every run: the worker polls if and only if it was started and neither stopped nor gone since |
| PrintRuns.InterruptedStaysInDoubt | packages/database/src/edge/repositories/PrintJobRepository.ts:144-155 | after a crash and a start, a job that was being sent is in doubt and stays so in every run |

## Left out

- Screens, dialogs, copy text, navigation, HTTP and socket clients, schemas, cryptography, and the order, cash and payment domain.
- `AssignmentCommands` and `PanelRuns` treat a payload as its JSON text; the text of `undefined` and of `toJSON` objects is not modelled.
- The tax state that an acknowledgement patches locally (apps/pos/src/useAdministrationController.tsx:355-363), the busy and error flags, and the reconciliation guard: the model lets a command run at any time.
- A resource loader that throws instead of returning a promise, which fails that resource at once without registering a request.
- `get` of the draft store hands out the record itself; callers that write into it are not modelled.
- The `fresh` flag of the resource cache and the panel is called `refetch` here, because `fresh` is a word of the language.
- The conversion of the percentage preview to a number above 2^53 - 1, which rounds; the preview is the integer before it.
- Amounts over 2^53 - 1 are printed exactly; the original divides in floating point there, on text that no longer parses either way.
- Calculation modes other than the two, refused by the tax calculation, cannot be written in the model.
- Fractions, exponents and numbers beyond the safe range in JSON text.
- `getDeviceOnboardingState`, `createClientDevicePairing`, pairing with a rotated identity, presets and the cash preview: each follows from its one body.
- The window in which a write to the device store is requested but its transaction later aborts: an aborted transaction is one that did not happen.
- Database constraints of a print job other than its id, its key and its target, and the command record stored beside it.
- Ticket rendering is a yes or no; the text and the debug adapter are not modelled.
- A claim transaction or a recovery that throws, which leaves the queue as it was.
