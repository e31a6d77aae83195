# Verification model of the factory edge services

This project models, in Dafny, the parts of the factory's edge services and migration scripts whose
correctness depends on state that changes step by step under failures: renaming users on fingerprint devices,
the weighbridge's ticket database and its store-and-forward queue, the sugar OPC push cursor, two loan schedule
generators, the company backfill, the scale reader, a cache and two limiters. Databases, devices, HTTP calls
and clocks are abstract state plus an outcome per call. `dafny verify dfyconfig.toml` checks everything.
Nothing here executes the original programs.

How the files fit together:

- `BiometricDevice` is a fingerprint device: numbered slots, and its view by user id if no id sits in two. Each device
  call takes its outcome (returned, raised, process died; with or without an effect) from an arbitrary tape, so "fails
  or dies anywhere" is a statement over all tapes. `RenameSlots` is the bridge's run slot by slot, with its three
  tables, and what holds of it on any device; `RenameBridge` is the code, proved to be that run.
- `RenameReference`, `RenameSafety` and `RenameHistory` say what a rename run means over user ids alone, and what it
  keeps. `RenameCaches` is the run by id as the tables decide it, and when it is the reference run; `RenameRefinement`
  proves that the run on slots is that run on a device with a view. Pairs form a plan when no id occurs twice among
  their old and new ids; they have clean targets when new ids are distinct and none is an old id, while old ids may
  repeat.
- `RenameAgreement` says what success means in a plan, `RenameSharing` and `RenameGroups` what repeated old ids do and
  cannot do. `RenameChunks` is one device's chunks and lost answers, `RenameDriver` the script: many devices, and the
  cloud. `RenameOverlap` is what happens when requests overlap on one device. `BulkUpsert` is the bridge's other
  slot-allocating endpoint.
- `WeighbridgeDb` holds the tables and the class that changes them; `WeighbridgeSync` the transition system in which
  web transactions interleave with the sync thread's fetch, POST and mark; `WeighbridgeSafety` and
  `WeighbridgeDelivery` what every interleaving keeps and when the queue drains; `WeighbridgeColumns` what each
  operation writes, column by column, and what a ticket says over a run; `WeighbridgeCloudSync` the sync thread's own
  code, proved to be that transition system's steps.
- `OpcCursor`, `LoanSchedules`, `CompanyMigration`, `WeightCapture`, `LruCache`, `Limiters`: one component each, a
  method or class beside the specification it refines. `Common` holds what several share.

Where the code does not keep a promise, the code was kept, and this is proved instead:

- A rename that is cut after some of its template saves and then repeated loses the templates not yet copied, although
  bridge.py calls that state recoverable: the worker keeps exactly the saved ones
  (`RenameHistory.RetryKeepsTheSaved`). A failure-free run carries every template of a pair over exactly when the new
  user had no valid template yet or already had them all (`RenameHistory.FullCarryOverIff`).
- The script checks that new ids are distinct but not that old ids are, and the schema only indexes them. With a
  shared old id a worker need not be on the device after a success: for a failure-free run
  `RenameSharing.SuccessIsTrueIff` says exactly when it is, namely when the new id was there before or no earlier pair
  renames the same old user, and `RenameSharing.SharedWorkerIsGone` that it is otherwise under neither id. What holds
  without distinct old ids, under any failures, is that an old id together with its new ids keeps a valid template
  (`RenameGroups.RequestsProtect`).
- The bridge's tables name one slot per user id, but a device can hold an id in two: an upsert that names a free slot
  for a user who has one makes such a device (`BulkUpsert.NamedSlotDoubles`). After a success the old id is gone
  exactly if at most one slot held it (`RenameSlots.SlotGoneIff`, `RenameChunks.ChunksGoneIff`).
- The script gives a chunk up after ten minutes and sends the next, and the bridge takes no lock. An interleaving of
  requests writes no occupied slot exactly as long as no request creates a user in a slot that another has filled
  since it opened (`RenameOverlap.OverlapIsSafeIff`); two that open and then both create do
  (`RenameOverlap.BothCreate`).
- A bulk upsert that leaves slots to the bridge writes another user's slot exactly when a call for a new user raised
  after taking effect and another new user follows before that one is sent again with success
  (`BulkUpsert.OverwritesIff`). A request that names its slot goes to another user's slot exactly when it names it
  (`BulkUpsert.NamedSlotIff`).
- An HTTP answer with an empty JSON body is judged by the previous failure's class; a failed POST is counted as what
  it was exactly when its body was not empty or the failure before it was transient
  (`WeighbridgeDelivery.CountIsExactIff`, and `RunIsExact` for runs). The comment on `mark_sync_failed` lists 408 and
  429 as transient; the code adds 401 and 403, and counts a 200 answer with an error key. The code is followed.
- A page that cuts a scan loses readings; `OpcCursor.PageCoverageIff` says exactly when, for all three kinds of page,
  and `OpcCursor.RunCoversIff` for whole runs. They stay unsent until the process restarts (`OpcCursor.StuckStays`); a
  restart sends those among the last 500 readings (`OpcCursor.RestartResendsIff`). The forward page that reaches a
  scan of more than 500 readings always cuts it (`OpcCursor.LargeScanIsCut`).
- Rows of a loan schedule are sound exactly when the EMI covers the interest on the opening balance
  (`LoanSchedules.SoundIff`).
- MSPIL rows that share a number among themselves but with no legacy row stay duplicates; the merged numbers are
  distinct exactly when there are no such rows and the legacy numbers were distinct
  (`CompanyMigration.MergedDistinctIff`).
- The scale's stability window survives a silence: frames from before it vouch for a captured weight exactly as long
  as fewer than four have followed (`WeightCapture.VouchedAcrossSilence`).
- The limiters read the wall clock. While it does not step back, no window holds more than the cap
  (`Limiters.AtMostCapPerWindow`, `Limiters.SteadyAttempts`); a step back within the window just forgotten lets one
  grant too many through (`Limiters.ClockMustNotStepBack`).

## Model

| member | source | states |
|---|---|---|
| BiometricDevice.ViewIff | biometric-bridge/bridge.py:533-534 | a device has a view by id, that is, each listed id has one record and one set of templates, if and only if no id sits in two slots; it then has one view only |
| RenameCaches.PairFrame | biometric-bridge/bridge.py:587-707 | one pair, whatever the caches say and whatever fails, changes only its own two ids on the device and in the caches, and adds no user but the new one |
| RenameCaches.OneSidedKept | biometric-bridge/bridge.py:615-705 | an old user still on the device stays in the caches: it is forgotten only when its deletion was confirmed |
| RenameCaches.CachedIsReference | biometric-bridge/bridge.py:587-707 | the run decided by caches read off the device is, for pairs with clean targets, the reference run, decided by the device itself, if they form a plan or if no call raises after taking effect |
| RenameSafety.CopyKeeps | biometric-bridge/bridge.py:677-694 | a copy, cut anywhere, changes only the target's templates, each becoming a pulled one; a completed copy has put a pulled template on every pulled finger and lists those fingers |
| RenameSafety.PairKeeps | biometric-bridge/bridge.py:587-707 | at whatever call a pair fails or dies: other users untouched, no foreign template gained, every valid old template still with old or already with new, unless new had valid templates, which then stay |
| RenameSafety.OkMeansMoved | biometric-bridge/bridge.py:696-705 | status ok: old is gone and new holds every valid template old had; a new user that was there before keeps its record, and one that was not has old's privilege, password, group and card under the new id, and old's name as far as the device can store it |
| RenameSafety.RecordIsKept | biometric-bridge/bridge.py:644-675 | whatever fails or dies: a new user on the device after a pair has the record it had before, or the old user's privilege, password, group, card and storable name under the new id |
| RenameSafety.RunKeepsRecords | biometric-bridge/bridge.py:587-719 | the same over a whole run over a plan, cut or failing anywhere |
| RenameSafety.StatusSays | biometric-bridge/bridge.py:596-712 | each of the eleven statuses a pair can be reported with: which of the two users were on the device before with valid templates or without, which are there after, and which templates were copied |
| RenameSafety.LastCallDecides | biometric-bridge/bridge.py:596-712 | a pair calls the device until a call fails; it is reported as done if and only if its last call returned, with a failure status if and only if that call raised, and not at all if and only if the process died in it; a pair without a call is already renamed, not there, or has no usable name |
| RenameReference.SafeNameIsDeviceName | biometric-bridge/bridge.py:165-175 | the name stored is the first 24 of the given name's characters below 256, in order |
| RenameReference.DeviceNameIsUnique | biometric-bridge/bridge.py:165-175 | no other name is |
| RenameReference.NamelessIff | biometric-bridge/bridge.py:165-175 | a name sanitises to empty if and only if it has no character below 256 |
| RenameSafety.RunFrame | biometric-bridge/bridge.py:587-707 | a run over a plan leaves every id it does not name as it was |
| RenameSafety.RunIsLocal | biometric-bridge/bridge.py:587-707 | a run over a plan treats each pair as if alone: its two ids are as at the start until it is handled and as it leaves them to the end, and its result is its own |
| RenameSafety.RunKeepsFingers | biometric-bridge/bridge.py:602-705 | within one run over a plan, cut anywhere, every valid finger of old is with old or new, except where new had valid templates; ok means all moved |
| RenameHistory.HistoryProtects | biometric-bridge/bridge.py:587-707 | over any sequence of runs on any sublists of a plan, each cut or failing anywhere, a worker with a valid template keeps one under the old id or the new, and comes to hold no other's |
| RenameHistory.FailureFreePair | biometric-bridge/bridge.py:602-705 | without failures a pair is one atomic move of record and valid templates; the moved record is the one RenameSafety.RecordIsKept describes |
| RenameHistory.FailureFreeRun | biometric-bridge/bridge.py:587-707 | without failures a run is those atomic moves one after the other, with one result per pair |
| RenameHistory.FailureFreeSettles | biometric-bridge/bridge.py:587-707 | a failure-free run leaves old absent and new present for each pair whose old was there, except new-absent pairs whose name sanitises to empty, which it leaves alone |
| RenameHistory.Convergence | biometric-bridge/bridge.py:587-707 | after any crash history one failure-free run settles its pairs, and a worker enrolled at the very start whose old id is then gone has a valid template under the new id |
| RenameHistory.SettledRunIsSilent | biometric-bridge/bridge.py:587-600 | a run over settled pairs makes no device request and reports already_renamed, old_not_found or name_empty |
| RenameHistory.SecondRunIsSilent | biometric-bridge/bridge.py:587-600 | after a failure-free run a further run changes nothing and reports name_empty exactly for the pairs that could not be named |
| RenameHistory.FullCarryOverIff | biometric-bridge/bridge.py:625-642 | in a failure-free run over any number of pairs, a pair whose old user is there keeps every valid old template with the worker if and only if new had no valid template, or had all of old's |
| RenameHistory.RetryKeepsTheSaved | biometric-bridge/bridge.py:625-694 | for any worker: a run whose process dies after n > 0 template saves, repeated without failure, reports ok_resolved_conflict and leaves the worker with exactly the n templates saved before the cut |
| RenameSlots.LastRowCounts | biometric-bridge/bridge.py:533-534 | by_user_id has exactly the ids read, and each id's row is the last one read with that id |
| RenameSlots.SavingStep | biometric-bridge/bridge.py:677-694 | one template save into a slot: what the loop does from here is that save and the rest, stopping at the first failure |
| RenameSlots.RunStep | biometric-bridge/bridge.py:587-707 | one pair of the bridge's run: what it does from here is that pair, decided by the tables, and the rest, ending if the process dies |
| RenameSlots.OpenedFits | biometric-bridge/bridge.py:531-553 | the tables built from the two reads fit any device: every occupied slot is taken, every row names a slot of its own that holds its user |
| RenameSlots.CreateFits | biometric-bridge/bridge.py:644-675 | the slot a user is created in is free on the device, though slots of deleted users are reused, and the tables still fit whatever became of the call |
| RenameSlots.DeleteFits | biometric-bridge/bridge.py:696-700 | the tables still fit after a deletion, forgotten once confirmed or kept after one that raised, with or without effect; once forgotten, exactly that slot is free again |
| RenameSlots.HandledIsSafe | biometric-bridge/bridge.py:527-719 | no request, on any device, for any pairs, cut or failing anywhere, sets a user on an occupied slot |
| RenameSlots.RequestTracks | biometric-bridge/bridge.py:533-707 | of the slots of an id that is no new id, a request leaves all alone but the one its row names, adds none, and after a success empties that one |
| RenameSlots.SlotGoneIff | biometric-bridge/bridge.py:533-707 | on any device, after a success for an old id that is no pair's new id, no slot holds that id when the request ends if and only if at most one slot held it when the connection opened |
| RenameSlots.RequestKeepsRecords | biometric-bridge/bridge.py:527-719 | on any device, for pairs whose old ids are no new ids, cut or failing anywhere: each slot has at the end the record it had when the connection opened, or the privilege, password, group, card and storable name that some slot then had for a pair's old id, under the new id |
| RenameRefinement.OpenedIsConsistent | biometric-bridge/bridge.py:531-553 | on a device that holds each id in one slot, the tables built from the two reads amount to reading it off, id by id |
| RenameRefinement.PairShown | biometric-bridge/bridge.py:587-707 | on such a device one pair through tables and reused slots does by id exactly what the caches decide |
| RenameRefinement.AllShown | biometric-bridge/bridge.py:587-719 | with distinct new ids, none on the device but not in the tables, so does the whole run |
| RenameRefinement.HandledIsCached | biometric-bridge/bridge.py:527-719 | with distinct new ids, one request on such a device is the cached run, from a cache read off the device |
| RenameBridge.NextFreeUid | biometric-bridge/bridge.py:178-182 | the least slot number from 1 that is not taken |
| RenameBridge.IndexUsers | biometric-bridge/bridge.py:533-534 | used_uids holds exactly the slots read, and by_user_id is the map in which the last row of an id counts |
| RenameBridge.IndexTemplates | biometric-bridge/bridge.py:543-553 | templates_by_uid lists each slot's valid templates in the order read |
| RenameBridge.RenameSession.constructor | biometric-bridge/bridge.py:531-553 | opening the session builds the three tables from the rows read, on any device |
| RenameBridge.RenameSession.AllocUid | biometric-bridge/bridge.py:555-560 | hands out the least unused slot and marks it used |
| RenameBridge.RenameSession.SaveTemplates | biometric-bridge/bridge.py:677-687 | the save loop does exactly the specified saves into the slot, stopping at the first failure |
| RenameBridge.RenameSession.ReportDelete | biometric-bridge/bridge.py:696-705 | deletes a user by its row's slot; all three tables forget it exactly when the device confirms |
| RenameBridge.RenameSession.RenameOne | biometric-bridge/bridge.py:587-707 | one pair in the code's own branches over the three tables is exactly the specified pair, on any device; the specified pair's records are described by RenameSlots.RequestKeepsRecords, its statuses by RenameSafety.StatusSays |
| RenameBridge.RenameSession.UsersRename | biometric-bridge/bridge.py:587-719 | the loop over the pairs is exactly the run on slots, for any device, tables and pairs |
| RenameBridge.HandleRename | biometric-bridge/bridge.py:527-719 | one request from opening the connection to its results is exactly the run on slots, and sets no user on an occupied slot, on any device and for any pairs |
| RenameAgreement.OneResultEach | biometric-bridge/bridge.py:587-719 | a run that does not die reports each of its pairs once, in order |
| RenameAgreement.SentIsHistory | backend/scripts/rename-device-userids.ts:115-147 | over a plan, the chunks sent to a device are one history of reference runs |
| RenameAgreement.PairSuccessIsTrue | backend/scripts/rename-device-userids.ts:293-298 | each status counted as success means: old is gone, and new is there or neither was there when the pair was handled |
| RenameAgreement.SuccessIsTrue | backend/scripts/rename-device-userids.ts:293-298 | over a plan, a success in a run means that at its end old is gone and new is there, or neither was there at its start |
| RenameAgreement.QuietSuccessIff | backend/scripts/rename-device-userids.ts:293-298 | in a failure-free run over a plan, a pair is a success if and only if it is not an old user without a new one whose name sanitises to empty |
| RenameAgreement.SuccessSentIsTrue | backend/scripts/rename-device-userids.ts:115-147 | across all chunks of a plan: success means old is gone and new is there, or neither was there before the first chunk; if nothing failed or was lost, the successes are exactly the pairs that could be named |
| RenameSharing.SharedRun | backend/scripts/rename-device-userids.ts:213-223 | a failure-free run over pairs with clean targets, old ids repeating: for each pair, exactly when it is a success and exactly when its new id is on the device at the end |
| RenameSharing.SuccessIsTrueIff | backend/scripts/rename-device-userids.ts:213-223 | a failure-free run of the bridge over pairs with clean targets, old ids repeating: a success of pair k means that its new id is on the device at the end, or its old user never was, if and only if the new id was there already or no earlier pair renames the same old user |
| RenameSharing.SharedWorkerIsGone | backend/scripts/rename-device-userids.ts:213-223 | in a failure-free run over pairs with clean targets: a worker whose old user an earlier pair renames, and whose new id was not on the device, is reported as a success and left under neither id |
| RenameGroups.RequestProtects | biometric-bridge/bridge.py:587-707 | one request, cut or failing anywhere, over pairs with clean targets, old ids repeating: if an old id or one of the new ids paired with it held a valid template, one of them does at the end, and together they hold no template they did not hold |
| RenameGroups.RequestsProtect | backend/scripts/rename-device-userids.ts:115-147 | the same over any sequence of requests for any of these pairs, however often they are repeated |
| RenameChunks.ChunksAreSafe | backend/scripts/rename-device-userids.ts:115-147 | on any device, no chunk writes an occupied slot |
| RenameChunks.ChunksReport | backend/scripts/rename-device-userids.ts:115-147 | across all chunks, lost ones and those of a bridge that died included, each pair gets one result, in order |
| RenameChunks.ChunksAreThirties | backend/scripts/rename-device-userids.ts:115-147 | the pairs are sent by thirties, each once and in order: pair 30q + j gets the j-th result of request q, which holds the q-th thirty and finds the device as the requests before it left it |
| RenameChunks.ChunksGoneIff | backend/scripts/rename-device-userids.ts:115-147 | on any device, across all chunks, whatever is lost: after a success for an old id that is no pair's new id, no slot holds it any more if at most one slot held it at the start, and, if no other pair names it, only then |
| RenameChunks.ChunksServed | backend/scripts/rename-device-userids.ts:115-147 | on a device that holds each id in one slot, the chunks are requests served one after the other on its view |
| RenameDriver.CallRenameOneChunk | backend/scripts/rename-device-userids.ts:88-113 | one chunk, on any device: the device does what the bridge does with these pairs, and the results are the bridge's own, or one chunk error per pair if it died or its answer was lost |
| RenameDriver.CallRename | backend/scripts/rename-device-userids.ts:115-147 | one device, whatever it lists: every chunk of 30 is sent once and in order, each served from the state its predecessor left, and the results are their answers joined, failed chunks included |
| RenameDriver.RepeatedNewIds | backend/scripts/rename-device-userids.ts:213-223 | the pre-flight list is empty exactly when the new ids are distinct |
| RenameDriver.Tally | backend/scripts/rename-device-userids.ts:284-302 | each worker's count is the number of success results for its new id over the devices that answered |
| RenameDriver.UpdateCloud | backend/scripts/rename-device-userids.ts:304-316 | exactly the workers whose count is the number of devices get their new id; all other rows stay |
| RenameDriver.OneSuccessAtMost | backend/scripts/rename-device-userids.ts:284-298 | one device contributes one or no success to a pair |
| RenameDriver.UnanimousIff | backend/scripts/rename-device-userids.ts:284-308 | the count equals the number of devices if and only if every device reported a success status for the pair |
| RenameDriver.RenameEverywhere | backend/scripts/rename-device-userids.ts:213-316 | aborts exactly when there is no device or a new id repeats; otherwise every device, whatever it lists, is served as the bridge does without writing an occupied slot; the cloud takes a new id exactly on unanimous success and no other row changes; a success means the old id, unless it is some worker's new id, is gone from that device if one slot held it, and, if no other worker has it, only then; a device that held each id in one slot does so again, and with clean targets no old id and its new ids lose their last valid template, and over a plan no worker does |
| RenameDriver.UndisturbedMeansUpdated | backend/scripts/rename-device-userids.ts:284-316 | for a plan, on devices that hold each id in one slot, with no failing call and no lost answer: the cloud row of a worker is its new id afterwards if no device holds its old user, without the new one, under a name that sanitises to empty, and is as before otherwise |
| RenameOverlap.OccupiedIff | biometric-bridge/bridge.py:533-560 | any number of requests interleaved on one device: a request sends a user to an occupied slot if and only if another one has filled that slot since this one opened and nobody has emptied it since |
| RenameOverlap.OverlapIsSafeIff | biometric-bridge/bridge.py:527-719 | an interleaving writes no occupied slot if and only if no creation meets that condition |
| RenameOverlap.AloneIsSafe | biometric-bridge/bridge.py:527-719 | a request never meets it as long as no other one creates a user after it opened |
| RenameOverlap.BothCreate | backend/scripts/rename-device-userids.ts:93-94 | on any device, two requests that open one after the other and then each create a user choose the same slot |
| RenameOverlap.PairLeads | biometric-bridge/bridge.py:587-707 | what a pair does to the device and to its request's tables is a sequence of the interleaved events |
| BulkUpsert.DoSetUser | biometric-bridge/bridge.py:185-216 | an upsert writes the slot the request names, else the user's own, else the least free one, keeps templates, and refuses exactly the names that sanitise to empty; its result is ok if and only if the call returned |
| BulkUpsert.UpsertStores | biometric-bridge/bridge.py:185-211 | an upsert with a usable name whose call has effect stores the request's own id, privilege, password, group, card and storable name in one slot, the named one if one is named, and the slot reported if ok; the slot's templates and all other slots stay; otherwise nothing changes |
| BulkUpsert.ChosenSlot | biometric-bridge/bridge.py:185-216 | on any device, a slot the bridge chooses is the user's own, or else the least number free on the device while the user has no slot |
| BulkUpsert.OneIsSafe | biometric-bridge/bridge.py:236-265 | on any device, one upsert into such a slot: no other user's slot is written, users stay in exactly their slots, a new one gets one, and with the stub appended the user list stays in step, unless the call raised after taking effect |
| BulkUpsert.BulkUpsert | biometric-bridge/bridge.py:236-265 | the user list is read once, and the batch is what the specification says, for any requests and any failures; each request is answered by the outcome of its own call: ok if and only if its name is usable and the call returned, set_user's error if and only if it raised; if slots are left to the bridge, another user's slot is written exactly on a collision, and none is if no call raises after taking effect |
| BulkUpsert.UpsertEach | biometric-bridge/bridge.py:236-265 | the loop over the requests, with the stub of each new user appended, is exactly the batch specification |
| BulkUpsert.BatchReports | biometric-bridge/bridge.py:236-265 | for any requests, list and device: request i is answered by the outcome of its own call, which is counted by the usable names before it, and results are missing exactly from a call in which the process died |
| BulkUpsert.BatchIsSafe | biometric-bridge/bridge.py:236-265 | on any device, a batch that leaves slots to the bridge and in which no call raises after taking effect, failing or dying anywhere: no other user's slot is written, users stay in exactly their slots, a new one gets one, and every result is right |
| BulkUpsert.BatchShows | biometric-bridge/bridge.py:236-265 | on a device that holds each id in one slot, such a batch is the upserts by id one after the other, templates kept |
| BulkUpsert.OverwritesIff | biometric-bridge/bridge.py:236-265 | a batch that leaves slots to the bridge, whatever fails, writes another user's slot if and only if a call for a user not in the list raised after taking effect and another user not in the list is sent before that one succeeded |
| BulkUpsert.CollisionIsNoted | biometric-bridge/bridge.py:236-265 | that other user takes the slot, and if the call has effect the first one is then on no slot |
| BulkUpsert.NamedSlotIff | biometric-bridge/bridge.py:185-216 | a request with a usable name is sent to a slot that another user holds if and only if it names that slot |
| BulkUpsert.NamedSlotDoubles | biometric-bridge/bridge.py:185-216 | a free slot named for a user who has another is taken with ok: the user then sits in both, the device has no view by id, and a rename that reports success for it leaves it on the device |
| WeighbridgeDb.LocalDb.NextTicketNo | weighbridge/local_db.py:180-185 | increments the counter and returns it |
| WeighbridgeDb.LocalDb.Create | weighbridge/local_db.py:192-249 | gate entry: next ticket, a GATE_ENTRY row that carries the given direction and vehicle number in capitals and the given details and no weights, and its snapshot in the queue under a never-used key |
| WeighbridgeDb.LocalDb.CaptureFirst | weighbridge/local_db.py:252-286 | first weight becomes gross (IN) or tare (else), status FIRST_DONE, nothing enqueued; unknown ids rejected |
| WeighbridgeDb.LocalDb.CaptureSecond | weighbridge/local_db.py:289-334 | second weight completes the ticket and enqueues its snapshot; an unknown id, missing first weight or negative net changes nothing |
| WeighbridgeDb.LocalDb.UpdateLab | weighbridge/local_db.py:463-496 | a lab result replaces all queued snapshots of the ticket by one fresh snapshot; bad status or id changes nothing |
| WeighbridgeDb.LocalDb.Delete | weighbridge/local_db.py:454-460 | removes the ticket and all its queue rows |
| WeighbridgeDb.LocalDb.MarkSent | weighbridge/local_db.py:544-559 | marks the row sent and, if row and ticket still exist, the ticket synced |
| WeighbridgeDb.LocalDb.MarkFailed | weighbridge/local_db.py:562-583 | counts an attempt only for a deterministic rejection |
| WeighbridgeDb.LocalDb.Requeue | weighbridge/local_db.py:586-603 | resets exactly the pending rows at the cap |
| WeighbridgeDb.LocalDb.Cleanup | weighbridge/local_db.py:817-825 | drops exactly the sent rows older than the cutoff |
| WeighbridgeDb.LocalDb.GetPendingSync | weighbridge/local_db.py:514-541 | at most 50 eligible rows, oldest first, none older left out, none left out of a short page |
| WeighbridgeColumns.UpperAt | weighbridge/local_db.py:232-233 | upper(): every letter becomes its capital and every other character stays |
| WeighbridgeColumns.BlankIff | weighbridge/local_db.py:233-233 | the ASCII characters strip() takes off |
| WeighbridgeColumns.StripCuts | weighbridge/local_db.py:233-233 | strip(): what is cut off is blank, and what is left neither begins nor ends with a blank; which characters are blank is BlankIff |
| WeighbridgeColumns.GateEntryStores | weighbridge/local_db.py:192-249 | column by column: the new ticket and its queued snapshot carry the direction, vehicle number and details given, the next ticket number, status GATE_ENTRY and no weights; every other ticket and row stays |
| WeighbridgeColumns.FirstStores | weighbridge/local_db.py:264-286 | column by column: the weight given goes to the first-weight column and to gross for IN, else to tare; direction and all other columns stay, nothing is queued |
| WeighbridgeColumns.SecondErrorIff | weighbridge/local_db.py:294-323 | when each of the three errors of a second weight is raised |
| WeighbridgeColumns.SecondStores | weighbridge/local_db.py:289-334 | column by column: the weight given goes to the second-weight column and to tare for IN, else to gross, net is gross - tare and not negative, and a snapshot of the whole ticket is queued; all other columns stay |
| WeighbridgeColumns.LabErrorIff | weighbridge/local_db.py:467-475 | a lab result is refused exactly for an unknown ticket or a status that is neither PASS nor FAIL |
| WeighbridgeColumns.LabStores | weighbridge/local_db.py:477-496 | the laboratory status, readings, remarks and tester given are stored with the time, nothing else of the ticket changes, and exactly the ticket's queue rows give way to one snapshot |
| WeighbridgeColumns.DeleteRemoves | weighbridge/local_db.py:454-460 | a deletion takes the ticket and exactly its queue rows |
| WeighbridgeColumns.MarkSyncedStores | weighbridge/local_db.py:544-559 | the row is marked sent and the ticket synced with the id the server gave; attempts, payload and all other rows and tickets stay |
| WeighbridgeColumns.MarkFailedStores | weighbridge/local_db.py:562-583 | one attempt more if it is to be counted, else as many as before; everything but the time of the attempt stays |
| WeighbridgeColumns.GoneRowsAreNotMarked | weighbridge/local_db.py:544-583 | marking a row that is gone changes nothing |
| WeighbridgeColumns.RequeueStores | weighbridge/local_db.py:586-603 | exactly the pending rows with ten attempts or more are set to 0 |
| WeighbridgeColumns.CleanupDrops | weighbridge/local_db.py:817-825 | exactly the sent rows created before the cutoff go |
| WeighbridgeColumns.LabStep | weighbridge/local_db.py:463-496 | the transition of a lab result: the ticket and its snapshot carry it, or nothing happens |
| WeighbridgeColumns.CleanupStep | weighbridge/local_db.py:817-825 | the transition of a clean-up: exactly the sent rows created before the cutoff go, and nothing else changes |
| WeighbridgeColumns.FetchStep | weighbridge/cloud_sync.py:164-180 | the transition of a fetch: the pass starts with the first entry of the page and no failure counted |
| WeighbridgeColumns.PostStep | weighbridge/cloud_sync.py:100-130 | a payload becomes accepted only by its own POST, and exactly if the answer accepts it or it reached a server; the database waits for the mark |
| WeighbridgeColumns.RestartStep | weighbridge/local_db.py:586-603 | a restart forgets the page and the memory, with a backoff of 10 s, and gives exactly the pending rows with ten attempts or more their attempts back |
| WeighbridgeColumns.RunTells | weighbridge/local_db.py:192-334 | in every state of every run: a ticket exists exactly if it was entered and not deleted since, and carries the direction, vehicle and details given at the gate, the weights given last, and when complete the loaded weight minus the empty one, by the direction given at the gate, as its net |
| WeighbridgeSafety.PendingRowsStay | weighbridge/local_db.py:454-603 | under every step a pending row keeps its payload, or leaves by being marked when its own POST was accepted, by a fresh snapshot in the same step, or with its ticket |
| WeighbridgeSafety.WeighmentChanges | weighbridge/local_db.py:192-496 | a ticket's business columns change only together with a fresh snapshot or into FIRST_DONE |
| WeighbridgeSafety.CoverageKeptAt | weighbridge/cloud_sync.py:164-206 | every step leaves each ticket not in FIRST_DONE with its current columns in a pending row or accepted by a server |
| WeighbridgeSafety.PageKept | weighbridge/local_db.py:146-154 | the thread's copies of queue rows stay right while web operations run, since keys are never reused |
| WeighbridgeSafety.StepKeeps | weighbridge/cloud_sync.py:164-206 | every interleaved step keeps the whole invariant |
| WeighbridgeSafety.RunKeeps | weighbridge/cloud_sync.py:164-206 | in every state of every run: coverage, and net = gross - tare >= 0 by direction in every complete ticket, queued payload and accepted payload |
| WeighbridgeSafety.TicketsNeverReused | weighbridge/local_db.py:180-185 | two tickets seen at any two moments of a run with one number are the same ticket, deleted since or not |
| WeighbridgeSafety.TicketsRise | weighbridge/local_db.py:180-185 | a ticket created later has a number above every number issued before |
| WeighbridgeDelivery.CountIsExactIff | weighbridge/cloud_sync.py:191-198 | a failed POST is counted as what it was, judged by HttpCountsIff and BodyCountsIff, if and only if its body was not empty or the failure before it was transient |
| WeighbridgeDelivery.HttpCountsIff | weighbridge/cloud_sync.py:32-49 | when no server sent a body, an attempt is counted if and only if the cloud answered with a code in 400..499 other than 401, 403, 408 and 429 |
| WeighbridgeDelivery.BodyCountsIff | weighbridge/cloud_sync.py:187-198 | when one did: accepted if and only if the body that counts says something and no error, refused if and only if it says an error; an empty one is counted as the previous failure |
| WeighbridgeDelivery.LinkAfterPost | weighbridge/cloud_sync.py:100-130 | reachability, last target, backoff and failure class after a POST, by what each server sent |
| WeighbridgeDelivery.OutageBurnsNothing | weighbridge/cloud_sync.py:32-49 | in a run of any length in which every failed POST is a network failure, a 5xx, or one of 401, 403, 408 and 429, a pending row's attempts stay what they were, or are 0 because it was enqueued or requeued meanwhile |
| WeighbridgeDelivery.RunIsExact | weighbridge/cloud_sync.py:32-49 | in every run in which no empty body follows a failure that was not transient, a pending row's attempts are its deterministic rejections, judged by HttpCountsIff and BodyCountsIff, since enqueued or last requeued; a row never refused stays eligible |
| WeighbridgeDelivery.RequeueRevives | weighbridge/local_db.py:586-603 | requeueing makes every pending row eligible, keeps every payload and changes no other row |
| WeighbridgeDelivery.EntryMovesOn | weighbridge/cloud_sync.py:178-206 | against a deterministic server each POST and mark strictly lowers the attempts left in the queue |
| WeighbridgeDelivery.PassStops | weighbridge/cloud_sync.py:178-206 | a pass makes one POST per entry in order and ends early exactly when the last three POSTs in a row were not accepted |
| WeighbridgeDelivery.PassMovesOn | weighbridge/cloud_sync.py:164-206 | each pass over a non-empty page strictly lowers the attempts left, despite the early stop after three failures |
| WeighbridgeDelivery.PassLowers | weighbridge/local_db.py:514-541 | with the 50-row page: a pass lowers the total unless nothing was eligible |
| WeighbridgeDelivery.QueueDrains | weighbridge/cloud_sync.py:164-206 | within ten passes per eligible row every acceptable payload is delivered and every other row is stored with exactly ten attempts |
| WeighbridgeCloudSync.CloudSync.Post | weighbridge/cloud_sync.py:100-130 | the factory-then-cloud POST returns the answering body and leaves the reachability, backoff and failure memory of the transition system |
| WeighbridgeCloudSync.CloudSync.PushEntry | weighbridge/cloud_sync.py:178-206 | one entry's code is exactly the POST step followed by the mark step; which answers burn an attempt is HttpCountsIff and BodyCountsIff |
| WeighbridgeCloudSync.CloudSync.PushPage | weighbridge/cloud_sync.py:178-206 | the loop with its early stop is exactly one pass of the transition system |
| WeighbridgeCloudSync.CloudSync.PushWeighments | weighbridge/cloud_sync.py:164-206 | a call is a fetch of a proper page followed by that pass |
| OpcCursor.PushKeepsCoverage | sugar-opc/cloud_sync.py:92-168 | if its page cuts no scan, a call keeps every enabled reading pushed, queued, above the forward cursor or below the backfill cursor, whatever its POST does |
| OpcCursor.ScanKeepsCoverage | sugar-opc/cloud_sync.py:113-121 | a new scan with a higher label keeps coverage |
| OpcCursor.RestartKeepsCoverage | sugar-opc/cloud_sync.py:99-112 | a restart that forgets both cursors keeps coverage |
| OpcCursor.PageCoverageIff | sugar-opc/cloud_sync.py:92-168 | forward, backfill and restart pages, POST delivered or not: a call keeps every enabled reading covered if and only if it does not move the cursor past a page that cuts an uncovered enabled reading off from its batch |
| OpcCursor.RunCoversIff | sugar-opc/cloud_sync.py:92-168 | from a fresh start over any calls, scans and restarts with the same enabled tags, POSTs delivered or not: every enabled reading is covered at every moment if and only if no call cuts one off |
| OpcCursor.StuckStays | sugar-opc/cloud_sync.py:92-168 | a reading that was cut off is not sent by any later calls, whatever is enabled, delivered or scanned meanwhile, as long as the process is not restarted |
| OpcCursor.LargeScanIsCut | sugar-opc/cloud_sync.py:113-121 | a batch of more than 500 readings anywhere in the table: the forward page that reaches its first reading ends inside it, and what lies beyond the page is then cut off in that sense |
| OpcCursor.RestartResendsIff | sugar-opc/cloud_sync.py:99-112 | after a restart and one delivered call a cut-off enabled reading is sent if and only if it is among the last 500 of the table; otherwise it is left to the backfill, or cut off again if its batch reaches into those 500 |
| OpcCursor.PushTerminates | sugar-opc/cloud_sync.py:92-168 | with the cloud reachable and no new scans a call leaves strictly less to do, or nothing is left and everything was pushed or queued |
| OpcCursor.CatchesUp | sugar-opc/cloud_sync.py:92-168 | with the cloud reachable and no new scans, a bounded number of calls ends with every enabled reading pushed or queued |
| OpcCursor.PageIsDue | sugar-opc/cloud_sync.py:96-143 | which page a call takes: without a forward cursor the last rows of the table, else the first rows above it, else, if there are none, the last ones below the backfill cursor; 500 of them, or all; and no page exactly if there is no such row |
| OpcCursor.SelectIsEnabled | sugar-opc/cloud_sync.py:149-149 | the payload of a page is exactly its enabled readings, in table order, each once |
| OpcCursor.QueueGrows | sugar-opc/cloud_sync.py:160-168 | after a failed POST every queued position's reading, those of the page included, is in a queued payload |
| OpcCursor.CloudSync.PushReadings | sugar-opc/cloud_sync.py:92-168 | the code moves both cursors and the queue exactly as the specification, in all its branches; the POST's body is the selection of SelectIsEnabled, and a position counts as queued only if some queued payload holds its reading |
| OpcCursor.CloudSync.Deliver | sugar-opc/cloud_sync.py:145-168 | a page without enabled readings advances without a POST; otherwise the page's enabled readings are posted, and a failed POST queues exactly them |
| LoanSchedules.GenSchedule | backend/scripts/import-debt-schedule.ts:149-189 | no disbursal date: nothing; bullet, no tenure or no EMI: one row; else the clamped recurrence that ScheduleSays describes |
| LoanSchedules.ScheduleSays | backend/scripts/import-debt-schedule.ts:166-188 | the number of installments is the tenure in months, or for a quarterly loan the least number of quarters that reaches it; row k has number k, the EMI as total, the balance before it times a twelfth or a fourth of the yearly rate as interest, to the nearest paisa with halves up, the rest of the EMI as principal, and leaves the balance less principal, or 0 if that is negative or the row is the last |
| LoanSchedules.Amortise | backend/scripts/import-debt-schedule.ts:171-188 | the loop computes the row-by-row recurrence with the zero clamp and the cleared last row |
| LoanSchedules.RoundingErrorBound | backend/scripts/import-debt-schedule.ts:172-176 | the rounded balance after i installments differs from P(1+r)-EMI iterated exactly by at most half a paisa times the sum of (1+r)^k, k < i |
| LoanSchedules.ScheduleShowsBalances | backend/scripts/import-debt-schedule.ts:171-188 | until a balance would fall below zero, and before the last row, the schedule shows these balances, so the bound holds of it |
| LoanSchedules.Repayments | backend/scripts/cleanup-and-load-loans.ts:219-263 | which loans get rows; their number and rate are those of RepaymentsSay |
| LoanSchedules.RepaymentsSay | backend/scripts/cleanup-and-load-loans.ts:219-263 | as many rows as reach the remaining months, by month or by quarter; row k has number k, the EMI as total, the balance before it times a twelfth or a fourth of the yearly rate as interest, to the nearest paisa, as principal the smaller of that balance and the rest of the EMI, and leaves the balance less principal, or 0 after the last |
| LoanSchedules.Repay | backend/scripts/cleanup-and-load-loans.ts:222-262 | both loops compute the same clipped recurrence |
| LoanSchedules.PrincipalIsConserved | backend/scripts/cleanup-and-load-loans.ts:228-232 | all principals plus what the last row writes off sum to the opening balance, for any EMI and rate |
| LoanSchedules.CoveredLoanIsSound | backend/scripts/cleanup-and-load-loans.ts:228-232 | if the EMI covers the first interest: interest does not rise, principal is not negative, the balance falls within [0, opening], principal + interest <= EMI with equality in unclipped rows |
| LoanSchedules.SoundIff | backend/scripts/cleanup-and-load-loans.ts:228-232 | every row is sound in that sense if and only if the EMI covers the interest on the opening balance |
| CompanyMigration.FindDuplicates | backend/scripts/backfill-company-mspil.ts:125-136 | the numbers shared by legacy and MSPIL rows, ascending, each once |
| CompanyMigration.GlobalMax | backend/scripts/backfill-company-mspil.ts:138-145 | the greatest number of the table, 0 when it is empty |
| CompanyMigration.Database.PlanDuplicates | backend/scripts/backfill-company-mspil.ts:222-242 | the changes give consecutive numbers to exactly the MSPIL rows with a duplicated number, by number and age, whatever the order of rows of one age |
| CompanyMigration.RenumberingIsSound | backend/scripts/backfill-company-mspil.ts:225-257 | applying the planned changes moves only these rows, to distinct fresh numbers in order of old number and age |
| CompanyMigration.NumbersAreConsecutive | backend/scripts/backfill-company-mspil.ts:226-242 | each new number from one above the maximum is taken by one moved row, and the plan names that row with its old and its new number |
| CompanyMigration.Database.RenumberDuplicates | backend/scripts/backfill-company-mspil.ts:214-280 | one table in one transaction: renumbered, or as before when it is a dry run or a dependent count drifted; all other tables as before |
| CompanyMigration.Database.BackfillTable | backend/scripts/backfill-company-mspil.ts:282-302 | all legacy rows of one table become MSPIL's, or none; the number of rows the backfill changes is returned; all other tables as before |
| CompanyMigration.CountsChanged | backend/scripts/backfill-company-mspil.ts:282-297 | the number of legacy rows is the number of rows the backfill changes |
| CompanyMigration.Database.RenumberAll | backend/scripts/backfill-company-mspil.ts:317-338 | phase one over the numbered tables in order: it stops at the first table whose dependents check fails, with the tables before it renumbered and every other as before |
| CompanyMigration.Database.Migrate | backend/scripts/backfill-company-mspil.ts:317-354 | both phases over all tables: a complete run migrates every numbered table and backfills the others, except that a table that cannot be written only misses its backfill; an aborted run leaves some first tables renumbered; a dry run changes nothing |
| CompanyMigration.MergedDistinctIff | backend/scripts/backfill-company-mspil.ts:214-302 | the merged MSPIL numbers are distinct if and only if the legacy numbers were and the MSPIL numbers that no legacy row has were |
| CompanyMigration.RunResumes | backend/scripts/backfill-company-mspil.ts:317-354 | a table renumbered by a cut run and then migrated by a complete one is the original table migrated |
| CompanyMigration.SecondRunChangesNothing | backend/scripts/backfill-company-mspil.ts:317-354 | migrating a migrated table changes nothing |
| WeightCapture.CapturedIffLive | weighbridge/web_ui.py:251-327 | without override or allowed client value a weight is captured if and only if the reader is connected, its newest frame is at most 3 s old and the last four frames lie within 10 kg; it is then that newest frame, otherwise 409 |
| WeightCapture.AcceptedIff | weighbridge/web_ui.py:251-327 | all other requests: exactly when a weight is accepted, from which source, with which stability flag, and which error code otherwise; an allowed or overriding client value is the one captured, as manual and stable |
| WeightCapture.StableIff | weighbridge/weight_reader.py:141-146 | the spread test holds if and only if no two of the last four frames are over 10 kg apart |
| WeightCapture.VouchedAcrossSilence | weighbridge/weight_reader.py:132-146 | for any frames before and after a silence: the four frames that vouch for a captured weight all follow the silence if and only if at least four do; with fewer, a weight is captured exactly when the newest is fresh and the last frames before the silence, filling the missing places, are settled with it |
| WeightCapture.SerialReader.UpdateWeight | weighbridge/weight_reader.py:122-146 | the reader's fields stay the function of all frames ever recorded |
| WeightCapture.SerialReader.GetStatus | weighbridge/weight_reader.py:104-120 | the status is a function of the recorded frames, the connection and the time |
| WeightCapture.StatusSays | weighbridge/weight_reader.py:104-120 | the status field by field: newest frame unless over 3 s old, its age in whole milliseconds, the frame count, and stable exactly if not stale and no two of the last four frames are over 10 kg apart |
| WeightCapture.SerialReader.DrainFrames | weighbridge/weight_reader.py:365-385 | one pass takes min(backlog, 64) lines in order, counting those arriving meanwhile, records exactly the valid ones and says whether there were any |
| WeightCapture.SerialReader.DrainRepeatedly | weighbridge/weight_reader.py:330-385 | the reader's loop: pass after pass, its buffer is exactly the backlog of these passes, and bounded if at most 64 lines arrive per pass |
| WeightCapture.NewestIsLast | weighbridge/weight_reader.py:365-385 | the last frame recorded is the newest valid line of the pass |
| WeightCapture.RecordedIsValidLines | weighbridge/weight_reader.py:365-385 | recorded of a pass is every weight that is not negative, in order, each once, with the time it was read |
| WeightCapture.BacklogIsTheRest | weighbridge/weight_reader.py:330-385 | over any passes no line is lost or overtaken: the buffer is what is left behind the lines read, at most 64 a pass |
| WeightCapture.BacklogStaysBounded | weighbridge/weight_reader.py:182-182 | with at most 64 lines per pass, arriving at any moment of it, a backlog of at most 64 lines never exceeds 64 |
| WeightCapture.FasterLinesPileUp | weighbridge/weight_reader.py:182-182 | with 65 lines per pass the backlog grows by one each pass |
| LruCache.RecencyIsByLastTouch | sugar-opc/opc_scanner.py:105-127 | the recency list holds exactly the keys touched since the last clear, in the order of their last touch |
| LruCache.CachedIff | sugar-opc/opc_scanner.py:105-127 | a key is cached if and only if it was touched since the last clear and fewer than max_size other keys after it |
| LruCache.TouchCommutes | sugar-opc/opc_scanner.py:110-121 | touching a key changes the bounded list just as it changes the unbounded one |
| LruCache.LRUCache.Lookup | sugar-opc/opc_scanner.py:110-114 | a hit returns the last put value and touches the key, a miss changes nothing |
| LruCache.LRUCache.Store | sugar-opc/opc_scanner.py:116-121 | after a put the cache holds the max_size most recently touched keys with their last put values |
| LruCache.LRUCache.Empty | sugar-opc/opc_scanner.py:123-124 | clearing empties the cache |
| Limiters.AtMostCapPerWindow | weighbridge/run.py:186-197 | no half-open window of the given length, wherever it starts, holds more than cap grants to one name |
| Limiters.PrunedAgain | weighbridge/run.py:191-193 | pruning at one time loses nothing a later time would count |
| Limiters.DropIsFaithful | sugar-opc/api_server.py:48-52 | an empty or idle bucket may be dropped without changing any later decision |
| Limiters.ThreadWatchdog.CanRestart | weighbridge/run.py:186-197 | for any clock exactly prune-then-grant; as long as the clock has not stepped back, a restart is granted exactly when the full history has fewer than 10 of that thread in the last hour |
| Limiters.ThreadWatchdog.GetRestartCount | sugar-opc/run.py:185-189 | the count over what is kept, which is the count over the full history as long as the clock has not stepped back |
| Limiters.OtherThreadsStay | weighbridge/run.py:186-197 | a restart touches the list of its own thread only |
| Limiters.RateLimiter.CheckRateLimit | sugar-opc/api_server.py:44-58 | for any clock exactly clean-up, prune, grant; as long as the clock has not stepped back, a request is granted exactly when the full history has fewer than 120 of its address in the last minute, whatever was pruned or evicted |
| Limiters.EvictedIff | sugar-opc/api_server.py:44-53 | a request touches its own address's bucket only, except that over 300 s after the last cleanup exactly the other buckets that are empty or idle for over 120 s go |
| Limiters.SteadyAttempts | weighbridge/run.py:186-197 | attempts at times that do not fall: no window holds more than cap of the granted ones |
| Limiters.ClockMustNotStepBack | weighbridge/run.py:186-197 | after a step back to any time within the window just forgotten, the code grants 11 restarts in one hour, and 121 requests in one minute |

## Left out

- The per-finger probing used when the up-front template read fails: it swallows probe errors, so the templates it lists need not be all, and the rename promises do not all survive it.
- Deletions the device silently drops: a call that returns is taken to have had its effect.
- On a device that holds an id in two slots, what becomes of its templates: slots, results and success are covered there, templates only on devices with a view.
- HandledIsCached: for pairs that repeat a new id only slot safety is promised, because a creation that raised after taking effect could be repeated in a second slot; the script never sends such pairs.
- RenameEverywhere: of an old id that is another worker's new id a success promises nothing, since that worker's rename brings the id back, and template protection is stated for clean targets.
- Overlapping requests: slots only (OverlapIsSafeIff); the theorems on success and templates take a chunk the script gave up on to be over before the next one starts.
- Devices are served one after the other; in the script they run side by side, each over its own connection.
- The order within the device's answers is free, but template objects are values: the bridge rewrites the slot number inside the object it copies, which nothing reads again.
- The renamed, failed and total counters of the rename answers, and the selection of pairs by flags and database queries.
- Letters outside ASCII in upper() and strip() at the gate.
- Per-column gate-entry defaults, shifts, vehicle history and printing at the weighbridge; the remaining columns are one field.
- A web operation's read and write are one transaction; a second capture between the read and the write of a first is not modelled, nor is the web layer's answer to each database error.
- Delivery order per ticket: an older snapshot that failed can be sent after a newer one, so no order is promised.
- Weights, rates and balances are reals or whole paise; floating-point error is not modelled.
- The OPC retry queue, its cap and backoff, hourly aggregates and changes of the enabled tags while a backlog exists; only StuckStays lets the enabled tags change.
- Due dates, statuses and the text parsing of loan sheets.
- The backfill's retries, backup check and counting of dependents, whose verdict is an outcome here, and the stop of a run by anything else than that verdict.
- Parsing of the scale's text lines, the reopening of ports and the file reader; a line is a weight or junk, and lines arrive whole.
- Locks, logging, heartbeats, authentication, routing and master-data pulls of all services.
