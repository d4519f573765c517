# Verified core of the Ardents backend

This project models the stateful core of the Ardents chat daemon in Dafny 4.11 and proves what it
keeps over whole runs: the message ratchet between two contacts, replicated group state with its
operations, the attachment store with quotas and garbage collection, the notification hub, chunked
uploads, the guard against replayed group events, the outbound retry queue, the automatic degradation
of public serving, and the cache of public blobs.

Each component has the same shape. A value-level specification says what one call does; a run is any
sequence of calls; the main lemmas hold for every run. Where the program works by changing things in
place, a class or a method with loops is proved to do what the specification says.

| files | component |
|---|---|
| `Text.dfy` | bytes, big-endian and decimal numbers, trimming, bytewise order, small set facts |
| `Ratchet.dfy`, `RatchetLink.dfy` | the session manager; two managers and an arbitrary network between them |
| `RatchetShared.dfy`, `RatchetTwice.dfy` | the same over the in-memory store, which shares its key map with its callers |
| `RatchetKeys.dfy`, `IdealCipher.dfy` | keys for different purposes are different; the cryptographic assumptions can be met |
| `GroupModel.dfy` | group state, events, and replicas fed from one log |
| `GroupPlans.dfy`, `GroupService.dfy` | what each operation decides; carrying it out on structs that share their maps |
| `GroupRuns.dfy`, `GroupWorld.dfy`, `GroupSnapshot.dfy` | runs on one group and on all, all-or-nothing batches, state as replay of the log, snapshots |
| `GroupPolicies.dfy`, `GroupAuthority.dfy`, `GroupOperations.dfy` | key versions, quotas, ownership; who may change what; exactly when each operation and each inbound event takes effect |
| `AttachmentIndex.dfy`, `AttachmentQuota.dfy` | sums and order of last use; what collection and eviction delete |
| `AttachmentStore.dfy`, `AttachmentRuns.dfy`, `AttachmentRules.dfy` | the store object and its loops; whole runs; the rules in terms of the settings |
| `NotificationHub.dfy` | history, replay and bounded channels |
| `ChunkUpload.dfy`, `ReplayGuard.dfy`, `OutboundRetry.dfy`, `Autodegrade.dfy`, `EphemeralCache.dfy` | one component each |

`dafny verify dfyconfig.toml` checks everything.

## Conventions

- Bytes and strings are Dafny strings, one character a byte. Times are integers in nanoseconds; 0 is
  the zero time. 64-bit and 32-bit numbers wrap explicitly.
- A region under a lock is one atomic step. Clocks, random ids, rate limiters, block lists, digests and
  failing saves are parameters of a step.
- Cryptography is a parameter. The ratchet results assume an ideal cipher (opening undoes sealing and
  succeeds only on what was sealed with the same key, nonce and associated data), a KDF with 32-byte
  output, and a network that cannot seal under a message key of the sender; the results on keys assume
  that the KDF keeps apart the purposes keys are derived for.
- The group results need event ids that are new and not blank for the key rotation of a batch, and a
  key version and event version that do not wrap; `GroupRuns.ChangeAndRotationIff` shows that this is
  exactly what a batch needs in order to be applied as a whole, and `GroupRuns.TornAtKeyVersionLimit`
  is an operation that is torn without it.
- The results about times need a clock that does not go back.

## Where the program falls short of a natural claim

- Replayed group events: an admitted event can be admitted a second time if it carries a time in the
  future; `ReplayGuard.NeverAgainIff` gives the exact condition. Different events can have one key when
  a part holds the separator (`ReplayGuard.CollidingKeys`), but not always then;
  `ReplayGuard.UnmistakableIff` says exactly when.
- The quota of the attachment store: an item that claims a size which takes the 64-bit sum over its
  limit is kept over the quota, and collection then stops evicting
  (`AttachmentQuota.StoredWithinQuotaIff`, `AttachmentQuota.CollectionReachesTargetIff`,
  `AttachmentRuns.OversizedItemIsKept`).
- An item that does not fit beside what is pinned is refused only after everything unpinned of its class
  has been evicted for it (`AttachmentRules.LetInIff`).
- The two usage sums of the attachment store may differ when an item has a class other than image or
  file; `AttachmentIndex.UsageSumsAgreeIff` says exactly when.
- Degraded limits: reconfiguring a degraded service puts the full limits in force although it stays
  marked as degraded; `Autodegrade.LimitsInForce` says after every run which limits are in force.
- The session store that shares its key map: the set of stored keys is exact, and no message is
  accepted twice, as long as no envelope past a gap carries something that was not sent
  (`RatchetShared.SharedExactIff`); without that a message may be accepted twice
  (`RatchetTwice.AcceptedTwice`, `RatchetShared.AcceptedAgainIff`), and `RatchetShared.SharedDelivery`
  says exactly when a message opens.
- Inbound events: an invited member may announce itself with any role; `GroupAuthority.InboundRoleIff`
  says exactly which inbound events change roles.

## Model

| member | source | states |
|---|---|---|
| RatchetLink.DeliveryExact | internal/crypto/session.go:139-261 | In every reachable state of two managers with distinct ids and one key, under any reordering, loss, repetition or interleaved garbage, handing over message i returns exactly its plaintext if and only if i was not accepted yet and is at most 512 ahead of, or at most 512 behind, the receiving index |
| RatchetLink.SkippedKeysExact | internal/crypto/session.go:198-260 | In every reachable state the skipped keys are exactly those of the indices below the receiving index, not accepted, at most 512 behind; each is the right key; no index is accepted twice, also after its id has left the list of 1024; at most 511 keys are stored |
| RatchetLink.OnlySentMessagesOpen | internal/crypto/session.go:183-261 | Whatever opens in any reachable state is the first delivery of a message that was sent, with the id, index and plaintext it was sealed with |
| RatchetLink.OpenedIsGenuine | internal/crypto/session.go:385-393 | An envelope that opens under the key of its index has the id, nonce and ciphertext of the message sent for that index |
| RatchetLink.CapNeverFires | internal/crypto/session.go:419-443 | After any forward step the two prunings drop only what is out of the window: the limit of 2048 keys is never reached |
| RatchetLink.StepKeepsInv | internal/crypto/session.go:139-261 | Every encryption and decryption on either side, successful or failing, keeps the invariant of the link |
| RatchetLink.UnacceptedIsUnseen | internal/crypto/session.go:402-417 | The id of a message not accepted yet is never in the list of seen ids |
| Ratchet.InitialSessionsCross | internal/crypto/session.go:363-371 | Two managers derive the same session id and root key, and each one's sending chain is the other's receiving chain, exactly when the ids differ or the two derivations agree |
| Ratchet.EnvelopeAADBinds | internal/crypto/session.go:385-393 | Within a session the associated data determines message id and index |
| Ratchet.EnvelopeAADBindsSession | internal/crypto/session.go:385-393 | It determines the session id too when session ids hold no NUL byte |
| Ratchet.BuiltAADBinds | internal/crypto/session.go:350-354 | The session ids the code builds hold none, so its associated data always determines session id, message id and index |
| Ratchet.OnlyAADIff | internal/crypto/session.go:385-393 | For arbitrary ids the associated data stands for one session id, message id and index only if and only if neither id holds a NUL byte |
| Ratchet.MessageIDBindsIndex | internal/crypto/session.go:148-148 | Message ids of different indices differ, whatever the clock says |
| Ratchet.StandardIsSound | internal/crypto/session.go:373-400 | The derivations, ids and associated data of the code meet the assumptions of the whole-run results, given an ideal cipher and a KDF with 32-byte output |
| RatchetKeys.StandardSeparates | internal/crypto/session.go:363-382 | With a KDF that keeps purposes apart, a message key or a ratchet key is never a chain key, nor one the other |
| RatchetKeys.DerivedKeysBind | internal/crypto/session.go:373-382 | Message, chain and ratchet keys derived from different keys or indices are different, as far as the KDF tells inputs apart |
| RatchetKeys.StoredKeysAreNoChainKeys | internal/crypto/session.go:198-260 | In every reachable state, with either store, no key kept for a skipped message is a chain key of either direction, so that none yields another key |
| RatchetKeys.RatchetKeysAreHarmless | internal/crypto/session.go:139-181 | The ratchet key an envelope carries is that of its index, and neither a message key nor a chain key |
| RatchetKeys.SessionsAre | internal/crypto/session.go:355-371 | Two contacts share one session id and one root key, made of both contact ids in order, and the one whose id comes first sends on the first chain |
| RatchetKeys.RootKeyBinds | internal/crypto/session.go:356-361 | With contact ids free of the colon between them, the root key binds the peer key and both contacts, as far as the KDF binds its arguments |
| RatchetKeys.RefusedFor | internal/crypto/session.go:183-224 | Exactly which envelopes a session refuses as incomplete, foreign, repeated or out of reach |
| RatchetKeys.EnvelopeSays | internal/crypto/session.go:139-181 | An envelope names version, session, index and the count received so far, and encrypting changes nothing but the sending chain |
| RatchetKeys.RolesExchange | internal/crypto/session.go:139-261 | A run is the same run with the roles exchanged, so that what holds of one direction holds of the other |
| Ratchet.PruneSkippedKeys | internal/crypto/session.go:419-443 | The two loops leave the entries within the window, and of these the ones with the largest indices up to the limit |
| Ratchet.SkipTo | internal/crypto/session.go:231-238 | The loop reaches the chain key of the target index and adds exactly the message keys of the indices passed |
| Ratchet.SeenContains | internal/crypto/session.go:402-409 | Found if and only if in the list |
| Ratchet.SessionManager.InitSession | internal/crypto/session.go:70-101 | Fails exactly on an empty contact, a key that is not 32 bytes or a failing save; otherwise stores the initial session |
| Ratchet.SessionManager.Encrypt | internal/crypto/session.go:139-181 | Result and stored session for every input and every failing call into the environment |
| Ratchet.SessionManager.Decrypt | internal/crypto/session.go:183-261 | Result and stored session for every envelope and every failing call; a failure leaves all sessions as they were |
| RatchetShared.SharedKeysAreRight | internal/crypto/session_store.go:29-34 | With the store that shares its key map, in every reachable state every stored key is still the right one, and only sent messages open |
| RatchetShared.SharedDelivery | internal/crypto/session_store.go:29-34 | With that store, in every reachable state, handing over message i returns exactly its plaintext if and only if i is not among the last 1024 indices accepted and its key is stored or at most 512 ahead; so every message not accepted yet and within reach is delivered |
| RatchetShared.SharedExactIff | internal/crypto/session.go:224-260 | With that store the stored keys are exactly the ones still needed, all along a run, if and only if the receiver is never given a fresh envelope for an index up to 512 ahead that carries nothing that was sent; and then no index is accepted twice |
| RatchetShared.FailsPastGapIff | internal/crypto/session.go:183-260 | Past a gap a decryption fails if and only if the envelope does not have the id, nonce and ciphertext sent for its index |
| RatchetShared.AcceptedAgainIff | internal/crypto/session.go:183-260 | An index accepted before is accepted again if and only if it is not among the last 1024 accepted and its key is stored or at most 512 ahead |
| RatchetTwice.AcceptedTwice | internal/crypto/session_store.go:29-34 | Without that condition single acceptance is lost: between any two contacts there is a run in which one index is accepted twice |
| RatchetShared.FailureLeavesNothingIff | internal/crypto/session.go:224-250 | While the stored keys are exact, a failing decryption leaves the stored session as it was if and only if it does not pass a gap |
| RatchetShared.SharedAdvanceIs | internal/crypto/session.go:224-260 | The two stores differ in what a failing decryption leaves in the key map and in nothing else |
| RatchetShared.StoredSession.Decrypt | internal/crypto/session.go:183-261 | Decryption writing into the shared key map: result, saved session and what a failure leaves behind |
| GroupModel.ReplicaHoldsPrefix | internal/domains/group/model/event.go:136-237 | A replica fed any sequence of entries of one log, in any order and with repeats, is the replay of a prefix of that log |
| GroupModel.ReplicasAtSameVersionAgree | internal/domains/group/model/event.go:136-237 | Two replicas of one log at the same version are equal |
| GroupModel.ReplicaReaches | internal/domains/group/model/event.go:136-237 | When the entries are acceptable, a replica holds exactly as long a prefix as the order of arrival allows |
| GroupModel.OfferedEntry | internal/domains/group/model/event.go:136-160 | An entry of the log changes a replica only if it is the very next one, and then the replica holds one entry more |
| GroupRuns.EveryRunIsRecorded | internal/domains/group/usecase/state_mutation.go:42-87 | Over every run mixing local operations, inbound events and failing persists, a live group's state is the replay of its log from the state after creation, entry k has version k + 1, and the applied ids are exactly the ids of the log |
| GroupRuns.OperationIsAtomic | internal/domains/group/usecase/membership_service.go:536-564 | Every operation leaves state and log as they were, or applies and logs its whole batch, or deletes the group, also when persisting fails after the shared maps were changed |
| GroupRuns.ChangeAndRotationIff | internal/domains/group/usecase/membership_service.go:536-551 | A membership change is followed through by its key rotation if and only if the rotation id is new and not blank and neither version wraps |
| GroupRuns.TornAtKeyVersionLimit | internal/domains/group/usecase/state_mutation.go:60-62 | A run of three operations, whatever the names, after which a leave is in the shared maps but neither in the log nor in the version: the owner creates the group, announces the last key version and leaves |
| GroupRuns.StepIsRecorded | internal/domains/group/usecase/membership_service.go:17-564 | Every single operation keeps state and log in step |
| GroupService.ApplyGroupEvent | internal/domains/group/model/event.go:136-237 | The in-place application of an event to a struct with shared maps has the effect of the specification, and touches nothing when the event is rejected or known |
| GroupService.CloneState | internal/domains/group/usecase/state_mutation.go:29-40 | The clone has the same value and maps of its own |
| GroupService.RunEvents | internal/domains/group/usecase/state_mutation.go:54-71 | The loop applies a batch to the shared maps up to the first rejected event |
| GroupService.GroupCell.ApplyEventsWithRollback | internal/domains/group/usecase/state_mutation.go:42-87 | Answer, stored state and log after a batch, for each outcome of its events and of persisting |
| GroupService.GroupCell.Execute | internal/domains/group/usecase/membership_service.go:17-564 | Carrying out any operation changes the stored entries as planned, including undoing after a failed persist |
| GroupPlans.InboundForUnknownGroupRefused | internal/domains/group/usecase/inbound_orchestration_service.go:143-202 | An inbound event for a group that is not stored is always refused |
| GroupWorld.EveryWorldRunIsRecorded | internal/domains/group/usecase/state_mutation.go:42-87 | The same for any number of groups: every operation concerns one of them, and each stored group is the replay of its own log |
| GroupSnapshot.SnapshotUnchanged | internal/domains/group/state_store.go:85-169 | After every run on any number of groups the snapshot of everything stored is accepted and comes back unchanged, whichever sorted order is chosen |
| GroupSnapshot.SortEventsSorts | internal/domains/group/state_store.go:127-132 | Sorting a log gives an ordered permutation of it |
| GroupSnapshot.NormalizeLog | internal/domains/group/state_store.go:119-132 | Returns a sorted arrangement of a log, or refuses it exactly when an entry is invalid or belongs to another group |
| GroupSnapshot.NormalizeSnapshot | internal/domains/group/state_store.go:85-137 | Accepts a snapshot with trimmed keys exactly when all states and logs are in order, and then changes nothing but the order within logs |
| GroupSnapshot.SortedStays | internal/domains/group/state_store.go:127-132 | A log with increasing versions has no other sorted arrangement than itself |
| GroupSnapshot.StateAccepted | internal/domains/group/state_store.go:139-169 | Accepts a state exactly when no applied id is blank and every member entry is in order |
| GroupPolicies.KeyVersionNamesActiveMembers | internal/domains/group/usecase/membership_service.go:104-564 | Over every run of local operations, during one lifetime of a group, the key version never decreases and states with equal key versions have the same active members |
| GroupPolicies.EveryServiceRunIsOrderly | internal/domains/group/usecase/service.go:308-328 | Over every run of service operations under fixed limits, members stay within the two quotas, and only the creator holds the owner role, active or having left |
| GroupPolicies.StepHasLocalEffect | internal/domains/group/usecase/membership_service.go:104-523 | A local operation changes nothing, or the profile, or exactly the entry of its subject as the operation prescribes, with one new key version where the membership changes |
| GroupPolicies.EnforceInviteQuotas | internal/domains/group/policy/abuse_protection.go:140-161 | The counting loop refuses exactly when one of the two quotas is used up |
| GroupAuthority.EveryChangeIsAuthorised | internal/domains/group/usecase/membership_service.go:104-523 | Over every run of local operations a member entry changes only through the member itself leaving, accepting or declining, or through an active owner or admin (for roles: owner), and owners are neither removed nor given another role |
| GroupAuthority.InboundRoleIff | internal/domains/group/usecase/inbound_events.go:3-87 | Over every run mixing local operations and inbound events, exactly which inbound events change a role or make somebody an owner |
| GroupOperations.EveryOperationGives | internal/domains/group/usecase/membership_service.go:104-523 | Over every run mixing local operations and inbound events, a request to change members or profile has exactly the prescribed effect on state, versions and known events if it is permitted, recordable and persisted, and none otherwise |
| GroupOperations.EveryEventGives | internal/domains/group/usecase/inbound_events.go:3-87 | Over every such run an inbound event has exactly the prescribed effect if it was admitted, is the next one, may be announced by its actor and is persisted, and none otherwise |
| GroupOperations.DeletedIff | internal/domains/group/usecase/membership_service.go:285-321 | A stored group is deleted, state and log, exactly by a persisted request of an active owner |
| GroupOperations.CreatedIff | internal/domains/group/usecase/membership_service.go:17-102 | A group that is not stored comes into being exactly by its creation, with the founder as its only member, an active owner |
| GroupOperations.RefusalApplies | internal/domains/group/usecase/membership_service.go:104-523 | The reason a local request is refused for is true of it |
| AttachmentQuota.CollectionReachesTargetIff | internal/storage/attachment_store.go:598-666 | After a collection a class with a quota is at its target or has no unpinned item left, if and only if the sizes of what has not expired add up within 64 bits, or there are no candidates, or the 64-bit sum without all candidates but the last is over the target |
| AttachmentQuota.VictimsAreShortestPrefix | internal/storage/attachment_store.go:651-665 | Victims are the shortest prefix of the candidates, in order, that gets the usage down to the target, or all of them |
| AttachmentIndex.LruOrderIsOrder | internal/storage/attachment_store.go:729-764 | The candidates are put in strict order of last use and id, none lost and none added |
| AttachmentIndex.LruOrderIsUnique | internal/storage/attachment_store.go:729-764 | There is only one such order |
| AttachmentQuota.DoomedAreUnpinned | internal/storage/attachment_store.go:598-666 | No pinned item is ever collected |
| AttachmentQuota.DoomedKeys | internal/storage/attachment_store.go:598-666 | What a collection deletes: the expired items, and of each class its victims among the others, whichever class is looked at first |
| AttachmentQuota.DoomedCauses | internal/storage/attachment_store.go:611-663 | What has expired is counted as expired, everything else as evicted |
| AttachmentQuota.ExpiredIff | internal/storage/attachment_store.go:613-632 | An item is marked as expired if and only if it is stored, not pinned, and has the age set for images if it is one, for files if it is not |
| AttachmentQuota.WithoutQuotasOnlyExpired | internal/storage/attachment_store.go:635-640 | Without quotas nothing else is marked |
| AttachmentRules.CollectionTakesOldest | internal/storage/attachment_store.go:635-666 | What a collection evicts was used no later than anything unpinned it keeps of the class |
| AttachmentRules.TargetIs | internal/storage/attachment_store.go:641-651 | A collection aims for the quota, or for the aggressive percentage of it once usage has come to the high watermark |
| AttachmentQuota.SecondCollectionDeletesNothing | internal/storage/attachment_store.go:598-692 | A second collection at the same time with the same policy deletes nothing, whatever the sizes |
| AttachmentQuota.ReportAddsUp | internal/storage/attachment_store.go:668-692 | The number deleted equals the sum by class, the sum by cause and the drop in the number of items |
| AttachmentIndex.UsageSumsAgreeIff | internal/storage/attachment_store.go:715-727 | The two 64-bit usage sums agree if and only if the sizes of the items filed as neither image nor file add up to a multiple of 2^64; if all sizes add up within 64 bits, if and only if there are none |
| AttachmentIndex.StraysMayCancel | internal/storage/attachment_store.go:715-727 | Three items filed as neither, whose sizes leave both sums in agreement |
| AttachmentQuota.StoredWithinQuotaIff | internal/storage/attachment_store.go:785-834 | A new item that is stored leaves its class within the quota if and only if usage and size add up within 64 bits |
| AttachmentQuota.StoredWithinQuota | internal/storage/attachment_store.go:785-834 | Any item, also one that replaces another, leaves its class within the quota when stored, if usage and size add up within 64 bits |
| AttachmentQuota.StoringKeepsOthers | internal/storage/attachment_store.go:785-834 | Whether an item is stored or not, no pinned item is evicted and no other entry changes |
| AttachmentRules.LetInIff | internal/storage/attachment_store.go:785-834 | Which items are let in and what the others are refused for: not too large, the class not full, and room beside what is there, or at least beside what is pinned; the quota refuses only after everything unpinned has gone |
| AttachmentRuns.StoringKeepsQuota | internal/storage/attachment_store.go:90-149 | After every run, with quotas changed at any time, a new item that is stored leaves its class within the quota of the moment if and only if its size and the usage add up within 64 bits |
| AttachmentRuns.EveryRunSumsAgree | internal/storage/attachment_store.go:845-858 | After every run the sum that insertion checks and the sum that collection uses agree, also before wrapping |
| AttachmentRuns.OversizedItemIsKept | internal/storage/attachment_store.go:335-396 | The exception is within reach: a run that keeps an item claiming 2^63 - 1 bytes whatever the quota |
| AttachmentRuns.LatestSettings | internal/storage/attachment_store.go:255-292 | After every run the limits and percentages are those set last |
| AttachmentRuns.NothingTooOldIsLeft | internal/storage/attachment_store.go:613-632 | After every run, a collection that can delete leaves no unpinned item older than the time set for its class |
| AttachmentRuns.PinnedItemStays | internal/storage/attachment_store.go:398-427 | A pinned item stays as it is through every run that neither unpins it nor stores over it |
| AttachmentStore.Store.RunGC | internal/storage/attachment_store.go:429-436 | A dry run changes nothing and reports exactly what the real run deletes on the same state |
| AttachmentStore.MarkForDeletion | internal/storage/attachment_store.go:598-666 | The marking loops mark exactly what the specification dooms, with its cause |
| AttachmentStore.Count | internal/storage/attachment_store.go:668-692 | The counting loop computes the report |
| AttachmentStore.SortByUse | internal/storage/attachment_store.go:729-764 | Sorting yields the order of last use |
| AttachmentStore.ComputeUsage | internal/storage/attachment_store.go:845-858 | The loop computes, in 64 bits, the sum that insertion checks |
| AttachmentStore.ComputeUsageExcluding | internal/storage/attachment_store.go:715-727 | The loop computes, in 64 bits, the sum that collection uses |
| AttachmentStore.Store.EnforceClassLimits | internal/storage/attachment_store.go:785-834 | Outcome, remaining index and hit counters for every item offered |
| AttachmentStore.Store.Put | internal/storage/attachment_store.go:90-149 | Stores new data under the class of its MIME type, or says why not; the index afterwards in each case |
| AttachmentStore.Store.PutExisting | internal/storage/attachment_store.go:335-396 | The same for data that brings an entry along, in any spelling and with fields missing |
| AttachmentStore.FillIn | internal/storage/attachment_store.go:342-359 | The entry with its class and pin state read from their spellings and its missing fields filled in |
| AttachmentRules.KindIs | internal/storage/attachment_store.go:766-776 | How class names and MIME types are read: in any case, with blanks around, and the MIME type where no class is named |
| AttachmentRules.EntryComesBack | internal/storage/attachment_store.go:342-359 | A complete entry that is written out and read in again is the same |
| AttachmentRules.OpenEntryIsNew | internal/storage/attachment_store.go:342-359 | An entry that leaves everything open becomes the entry of new data: its size, the present time, not pinned, the class of its MIME type |
| AttachmentRules.LastUseDefaultsToCreation | internal/storage/attachment_store.go:348-356 | What an entry does give is kept, and its time of creation stands in for a missing time of last use |
| AttachmentStore.Store.SetPinState | internal/storage/attachment_store.go:398-427 | Outcome and index for every id and every requested pin state |
| AttachmentRules.PinStateIs | internal/storage/attachment_store.go:398-409 | The two pin states a client may ask for, in any case and with blanks around |
| AttachmentStore.Store.SetHardCapPolicy | internal/storage/attachment_store.go:266-292 | The percentages are forced into order |
| AttachmentRules.CapIsNearest | internal/storage/attachment_store.go:266-292 | The percentages set are in order and, one after the other, the nearest to those asked for |
| AttachmentStore.Store.SetClassPolicies | internal/storage/attachment_store.go:255-264 | For each class: no limit without a positive number of megabytes, and 2^20 bytes a megabyte otherwise |
| NotificationHub.EveryRun | internal/platform/runtime/runtime.go:52-105 | After every run the history is the last events up to the limit, and every subscriber's replay followed by its channel is a gap-free stretch of the stream of all events |
| NotificationHub.StreamIsConsecutive | internal/platform/runtime/runtime.go:52-105 | So the sequence numbers a subscriber sees are consecutive |
| NotificationHub.StartsRightAfterIff | internal/platform/runtime/runtime.go:80-105 | At any time after subscribing, what a subscriber was given, if anything, starts with the event after the number it asked for if and only if the hub had got that far and still retained the next event when it subscribed |
| NotificationHub.OpenIff | internal/platform/runtime/runtime.go:52-105 | A subscriber is up to date if and only if it was never cancelled and never had 128 events waiting when another was published |
| NotificationHub.HistoryIs | internal/platform/runtime/runtime.go:34-78 | The history is the last events published, as many as were asked for but at least one |
| NotificationHub.ReceiveHandsOver | internal/platform/runtime/runtime.go:80-105 | Receiving hands over the first event that waits; nothing is lost and nobody else notices |
| NotificationHub.Hub.Publish | internal/platform/runtime/runtime.go:52-78 | Numbering, history and every channel after publishing; full channels are closed |
| NotificationHub.Hub.Subscribe | internal/platform/runtime/runtime.go:80-105 | The replay and the new channel |
| ChunkUpload.UploadReassembles | internal/domains/identity/usecase/attachment_chunk_upload.go:48-192 | Announcing a file and sending its pieces in any order, repeated or not, among calls for other uploads: a commit gives back exactly the file if and only if the announcement was in order and its digest, name and type are those of the file, the session lives and is not idle for more than 15 minutes, and every piece was sent |
| ChunkUpload.SessionLivesIff | internal/domains/identity/usecase/attachment_chunk_upload.go:48-192 | A session is there, with what was announced and sent, if and only if it was announced in order, no call found it idle for more than 15 minutes and none committed it when it was ready |
| ChunkUpload.CommitNeverFailsOnSize | internal/domains/identity/usecase/attachment_chunk_upload.go:164-176 | In every reachable state a commit never fails on the size, and is incomplete exactly when a chunk is missing |
| ChunkUpload.ChunkFitsIff | internal/domains/identity/policy/input_validation.go:66-87 | The checks on a chunk let through exactly the data that fills its place in the file |
| ChunkUpload.FirstMissing | internal/domains/identity/usecase/attachment_chunk_upload.go:136-143 | The next chunk reported is the least missing index |
| ChunkUpload.Collect | internal/domains/identity/usecase/attachment_chunk_upload.go:164-172 | The loop joins the chunks in order, or finds one missing |
| ChunkUpload.Service.PurgeExpired | internal/domains/identity/usecase/service.go:170-179 | Exactly the sessions idle for more than 15 minutes go |
| ChunkUpload.Service.InitUpload | internal/domains/identity/usecase/attachment_chunk_upload.go:48-81 | Opens an empty session, or refuses |
| ChunkUpload.Service.PutChunk | internal/domains/identity/usecase/attachment_chunk_upload.go:83-126 | Stores a chunk or refuses it; all sessions afterwards |
| ChunkUpload.Service.CommitUpload | internal/domains/identity/usecase/attachment_chunk_upload.go:152-192 | The assembled data or the error; all sessions afterwards |
| ReplayGuard.AdmissionsAreFarApart | internal/composition/daemonservice/runtime_inbound.go:150-175 | In every run with a clock that does not go back, two admissions of one key are more than 30 minutes apart |
| ReplayGuard.AdmittedIff | internal/composition/daemonservice/runtime_inbound.go:150-175 | Over every run from an empty table with such a clock, an event is admitted if and only if it has a key, its time is at most 30 minutes past or 2 minutes ahead, and none with its key was admitted in the 30 minutes before |
| ReplayGuard.NeverAgainIff | internal/composition/daemonservice/runtime_inbound.go:150-175 | An admitted event is never admitted again if and only if it carries a time that was not in the future when it was admitted |
| ReplayGuard.ReadmittedLater | internal/domains/group/policy/runtime_helpers.go:44-54 | An event without a time, or from the future, comes through a second time |
| ReplayGuard.UnmistakableIff | internal/domains/group/policy/runtime_helpers.go:33-42 | No event with other parts has the key of an event if and only if no part holds a separator that could take the place of one beside the part: without a space next to it, not at either end of the key, and not all there is of the group or the device |
| ReplayGuard.CollidingKeys | internal/domains/group/policy/runtime_helpers.go:33-42 | Two different events that the guard gives one key |
| Text.TrimSpaceIs | internal/domains/group/policy/runtime_helpers.go:34-37 | Trimming takes away nothing but blanks at the ends, and all of them |
| ReplayGuard.Guard.Check | internal/composition/daemonservice/runtime_inbound.go:150-175 | Verdict and table of seen keys for every request |
| OutboundRetry.GivenUpAtTheEighth | internal/composition/daemonservice/service_runtime.go:312-329 | A message queued at count 1 that cannot be sent stays queued through seven failing passes, is removed at the eighth, and its status is always the best one seen |
| OutboundRetry.GivingUpTakesTime | internal/composition/daemonservice/service_runtime.go:312-329 | The pass that gives up is the eighth, at least 150 seconds after queueing, and leaves the message failed unless it was seen as sent, delivered or read |
| OutboundRetry.SuccessIsFinal | internal/composition/daemonservice/service_runtime.go:184-216 | Once a pass or the startup pass has sent a message, whatever happens later, it is not queued, no pass takes it up, and it counts as sent, delivered or read |
| OutboundRetry.QueuedIff | internal/composition/daemonservice/service_runtime.go:184-329 | Over every run a message queued for its first retry is in the queue exactly as long as no send has succeeded and fewer than eight passes have taken it up |
| OutboundRetry.StatusIsBest | internal/storage/message_store.go:483-514 | For any order of known updates the stored status is the highest of sent, delivered and read seen, or else the latest update |
| OutboundRetry.UnknownStatuses | internal/storage/message_store.go:483-514 | Unknown statuses never replace known ones, and are replaced by them except that a failure does not replace an unknown text |
| OutboundRetry.ComputeBackoff | internal/domains/messaging/usecase/flows.go:270-283 | The doubling loop computes 2 to the n seconds, at most 30 |
| OutboundRetry.BackoffIs | internal/domains/messaging/usecase/flows.go:270-283 | The waits are 2, 4, 8, 16 and then 30 seconds |
| OutboundRetry.MessageStore.RetryPass | internal/domains/messaging/usecase/flows.go:211-237 | One pass takes every message through its own step and leaves those not due alone |
| OutboundRetry.MessageStore.RecoverOnStartup | internal/composition/daemonservice/service_runtime.go:184-191 | The startup pass sends what is due within a day and ignores failures |
| OutboundRetry.MessageStore.HandleRetryError | internal/composition/daemonservice/service_runtime.go:312-329 | Queue entry and status after a failed send |
| OutboundRetry.MessageStore.MarkAsSent | internal/composition/daemonservice/service_runtime.go:211-216 | Status and queue after a successful send |
| OutboundRetry.MessageStore.UpdateMessageStatus | internal/storage/message_store.go:80-95 | Merges the status of a known message and leaves the rest alone |
| OutboundRetry.MessageStore.DuePending | internal/storage/message_store.go:284-294 | Exactly the entries whose time has come |
| Autodegrade.EntersAfterOverload | internal/composition/daemonservice/public_serving_autodegrade.go:11-41 | Degraded mode is entered only at the end of an unbroken overloaded stretch at least as long as the overload window |
| Autodegrade.LeavesAfterCalm | internal/composition/daemonservice/public_serving_autodegrade.go:11-41 | It is left only at the end of an unbroken calm stretch at least as long as the recovery window |
| Autodegrade.SustainedLoadDecides | internal/composition/daemonservice/public_serving_autodegrade.go:11-41 | At the end of such stretches the service is degraded, and is not, respectively |
| Autodegrade.NoFlapping | internal/composition/daemonservice/public_serving_autodegrade.go:11-41 | Between switching one way and the other lies at least the window of the second switch |
| Autodegrade.NormalLimitsWhenNotDegraded | internal/composition/daemonservice/public_serving_limits.go:24-60 | Whenever the service is not degraded its four limits are the configured ones, across any reconfiguration |
| Autodegrade.LimitsInForce | internal/composition/daemonservice/public_serving_autodegrade.go:68-123 | After every run the degraded limits are in force exactly while the service is degraded and has not been reconfigured since it became so; otherwise the configured ones |
| Autodegrade.LimitsAfterEveryRun | internal/composition/daemonservice/public_serving_autodegrade.go:68-123 | The same in numbers: the limits configured last, or their percentage with the floors and the degraded counts |
| Autodegrade.OverloadedIff | internal/composition/daemonservice/public_serving_autodegrade.go:43-66 | A tick is overloaded if and only if serving is allowed and memory, backlog or lag have come to their thresholds or the soft cap was hit since the tick before; the reason kept is the first of these |
| Autodegrade.DegradedSinceWhen | internal/composition/daemonservice/public_serving_autodegrade.go:11-41 | The time kept is that of the tick since which the service has been degraded, and 0 when it is not |
| Autodegrade.RecoveryClearsReason | internal/composition/daemonservice/public_serving_autodegrade.go:99-123 | With recovery the reason is cleared |
| Autodegrade.ReconfigurationLiftsDegradation | internal/composition/daemonservice/public_serving_limits.go:24-60 | The exception does occur: a degraded service that is reconfigured keeps the full limits as long as it stays degraded |
| Autodegrade.DegradedLimitsAreLower | internal/composition/daemonservice/public_serving_autodegrade.go:72-79 | Degraded bandwidths are at least 1, in order, and not above bandwidths that were set |
| Autodegrade.PublicServing.Evaluate | internal/composition/daemonservice/public_serving_autodegrade.go:11-41 | The state after a tick |
| Autodegrade.PublicServing.ConfigureLimits | internal/composition/daemonservice/public_serving_limits.go:24-60 | The state after a reconfiguration |
| EphemeralCache.EveryRun | internal/composition/daemonservice/public_ephemeral_cache.go:35-166 | After every run the bytes held are within the budget, a disabled cache is empty, and every blob is the one last put under its id |
| EphemeralCache.PutThenGet | internal/composition/daemonservice/public_ephemeral_cache.go:58-117 | A blob put later than every other use is hit with the same bytes until it expires |
| EphemeralCache.EvictedIsOld | internal/composition/daemonservice/public_ephemeral_cache.go:146-166 | An entry stays as long as it and everything used as recently fit the budget, and one that stays fits together with everything used later |
| EphemeralCache.HitRenews | internal/composition/daemonservice/public_ephemeral_cache.go:95-117 | A hit keeps the blob for another lifetime |
| EphemeralCache.HitProtects | internal/composition/daemonservice/public_ephemeral_cache.go:95-117 | What was looked up last stays when the next put makes room, if both fit |
| EphemeralCache.NothingExpiredIsLeft | internal/composition/daemonservice/public_ephemeral_cache.go:58-144 | Every call that is not refused for its arguments leaves nothing that has expired by then |
| EphemeralCache.ConfiguredIs | internal/composition/daemonservice/public_ephemeral_cache.go:35-56 | 2^20 bytes a megabyte and 60 seconds a minute; disabled and empty if either is not positive |
| EphemeralCache.SettingsStay | internal/composition/daemonservice/public_ephemeral_cache.go:58-144 | Nothing but a new configuration changes budget and lifetime |
| EphemeralCache.BlobCache.EnforceBudget | internal/composition/daemonservice/public_ephemeral_cache.go:146-166 | The loop ends within the budget after taking only oldest entries, and keeps the byte counter exact |
| EphemeralCache.BlobCache.PruneExpired | internal/composition/daemonservice/public_ephemeral_cache.go:131-144 | Exactly the expired entries go, and the byte counter stays exact |
| EphemeralCache.BlobCache.PutBlob | internal/composition/daemonservice/public_ephemeral_cache.go:58-93 | Acceptance and cache for every put; the byte counter equals the sum of sizes |
| EphemeralCache.BlobCache.GetBlob | internal/composition/daemonservice/public_ephemeral_cache.go:95-117 | A hit renews the entry and returns its bytes; the byte counter equals the sum of sizes |
| EphemeralCache.BlobCache.Reconfigure | internal/composition/daemonservice/public_ephemeral_cache.go:35-56 | Cache and limits after a reconfiguration; the byte counter equals the sum of sizes |
| EphemeralCache.FindOldest | internal/composition/daemonservice/public_ephemeral_cache.go:148-155 | The inner loop finds an entry used longest ago |
| Autodegrade.PublicServing.ApplyDegradedLimits | internal/composition/daemonservice/public_serving_autodegrade.go:68-97 | The limits in force after degrading |
| Autodegrade.PublicServing.MarkSoftCapExceeded | internal/composition/daemonservice/public_serving_limits.go:125-129 | The flag the next tick looks at |
| AttachmentStore.Store.DeleteIDs | internal/storage/attachment_store.go:694-713 | Exactly the given ids leave the index, or none |
| EphemeralCache.BlobCache.PurgeExpired | internal/composition/daemonservice/public_ephemeral_cache.go:119-129 | The cache without the expired entries; the byte counter equals the sum of sizes |
| NotificationHub.Hub.Cancel | internal/platform/runtime/runtime.go:96-103 | Closes one channel and leaves the others alone |
| OutboundRetry.MessageStore.AddOrUpdatePending | internal/storage/message_store.go:255-270 | The queue entry of one message is set, others stay |
| OutboundRetry.MessageStore.RemovePending | internal/storage/message_store.go:272-282 | The queue entry of one message goes, others stay |

## Left out

- GroupPolicies.EveryServiceRunIsOrderly: for local operations; inbound events are not subject to the quotas.
- GroupSnapshot.NormalizeSnapshot: nothing is promised for keys with blanks at either end; there the result may depend on the order in which the program walks its maps.
- GroupService.GroupCell.Execute: the object holds one group's entries in the two maps; that other groups stay as they are is part of `GroupWorld.WorldNext`.
- AttachmentStore.Store.RunGC: a failing deletion leaves the index as it was; files removed before the index write failed are not modelled.
- AttachmentStore.Store.SetPinState: classes and pin states are kept as their readers read them, so that an item whose stored spelling of its pin state differs from the one asked for, and which the program saves anew, counts as unchanged.
- AttachmentRules.TargetIs: for quotas up to 2^63 / 100 bytes; above that the percentages of the quota wrap around.
- AttachmentRules.LetInIff: where usage and size add up within 64 bits and quotas are as for `AttachmentRules.TargetIs`; beyond that `AttachmentQuota.StoredWithinQuotaIff` says what is stored.
- X3DH, identity keys, signatures, mnemonic backup: cryptography outside the session ratchet.
- Session timestamps, snapshots and wiping of sessions, and opening a session anew in the middle of a run.
- Wrap-around of chain indices within one window of 2^64 (two windows for the shared key map).
- Contents of attachments, encryption of files, the JSON index, legacy migration, purging by age alone, renewal of the access time by reads; lifetimes of more than 292 years, whose nanoseconds exceed 64 bits.
- Group titles changed on their own (a profile change with the stored description and avatar), fan-out of group messages, inbound group messages, notifications and counters.
- Unicode: only ASCII letters and the ASCII and Latin-1 blanks are folded and trimmed.
- Resetting the notification hub, and cancelling a subscription of before a reset.
- Base64 and the spelling of digests in chunked uploads; the check of the assembled payload is a parameter.
- Wire formats, message contents and error texts of queued messages; failing saves in the message store.
- Token buckets behind the serving limits, and races between a reconfiguration and a tick.
- The waku node, transport, RPC server, command line and user interface.
