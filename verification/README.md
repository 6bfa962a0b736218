# Zaqar's storage protocols, verified in Dafny

Zaqar is a multi-tenant message queue. Its API workers share a database through
operations that are atomic on one document only, so its guarantees rest on
protocols: how producers number messages, how consumers lease them, how a cache
sits in front of the catalogue, how paged loops walk over data they change. This
project models those protocols and the algorithms beside them and proves what
they guarantee, over every input, every interleaving and every run.

`dafny verify dfyconfig.toml` checks the whole project.

## Modules

| module | what it holds |
|---|---|
| `Fifo` | the FIFO posting protocol as a transition system: any number of producers and observers, crashes, removals, stall increments, lost replies |
| `FifoOrder` | what holds in every run of it |
| `FifoGapFree` | what holds when stall increments are justified, and that this condition is exact |
| `FifoTear` | what unjustified and repeated increments do to batches, and exactly which can tear one |
| `FifoMiss` | what they do to observers, and exactly which can make one miss a message |
| `FifoObserver` | what a client paging by marker sees, and the listing itself |
| `FifoPost` | `post` as a loop of database calls under arbitrary interference, refining `Fifo` |
| `Reservation` | posting without the FIFO guarantee |
| `Claims`, `ClaimLeases`, `ClaimController` | claims as leases: the steps, the guarantees over all interleavings, the controller's methods under arbitrary interference |
| `CacheStaleness`, `Catalog`, `Weighted` | the caching decorators under concurrency, the pooling catalogue behind its cache, weighted pool selection |
| `Paging`, `SwiftListing`, `Notifier` | paged loops against one flat specification |
| `RedisGc` | the garbage collector that deletes under its own offset |
| `NotificationParser`, `JsonPointer`, `Backoff` | the incremental HTTP parser, the JSON-pointer validator and decoder, retry arithmetic |
| `PostTiming` | which limit ends a post, the attempts or the 45 seconds |
| `NatSets`, `Wrappers` | least and unused elements of finite sets; optional values |

## How the model relates to the code

Each database operation is one atomic step. A multi-document operation is one
step per document (inserts, finalising) or one step per arbitrary part of the
matching documents (claim updates), because MongoDB does not isolate it; where a
result needs isolation, it says so. A step that depends on a worker's clock
carries the reading. The unique index on markers, and the uniqueness of `_id`,
are guards on the insert step: a retried batch keeps the `_id`s it was given at
its first attempt. A call repeated as a whole after a reconnect is a crash of
the first call followed by a new one.

`FifoPost` and `ClaimController` take the other clients as a parameter: before
each of the worker's own operations they may take any steps they are able to.
Every execution is therefore a run of the transition system, and all results
about runs apply to the methods.

## Where the code does less than its comments say

* **Stall increments.** `post` takes a counter that has not moved for five seconds
  as a sign that its owner has crashed. `StallSafeIffOwnerCrashed` shows that the
  increment keeps the markers gap-free exactly when the document the counter
  points at belongs to a crashed post. On a queue that was idle for five seconds
  it fires while the owner is alive (`MisfireHappens`), and then some continuation
  has a gap.
* **Repeated increments.** The counter is incremented in a loop that repeats after a
  lost connection. A repetition whose first attempt took effect can always lead to a
  gap (`LostReplyLeadsToGap`), to a torn batch (`LostReplyCanTear`) and to a message
  that an observer never sees (`LostReplyCanMiss`).
* **Partly stored batches.** The comments rule them out. That is true in benign
  runs (`DuplicateOnlyOnFirst`). After a stall increment that misfires a batch can
  stop after its first document (`BatchIsTorn`), in exactly the cases of
  `CanTearIffExposed`; after a repeated count it always can. What is stored of a
  batch that fails stays invisible (`FailedPostIsInvisible`).
* **The longest stall.** The comment beside the loop says that a post is abandoned
  after 49.95 seconds with the default configuration. That is the sum of all
  sleeps, but the loop also stops at the first conflict after more than 45
  seconds, and that limit is reached first, after at most 961 attempts
  (`DefaultsRunOutOfTime`, `AttemptsUsableIff`).
* **Observers that skip messages.** The counter is read and not incremented first, so
  that an observer cannot overtake a slower post. In benign runs this works for posts
  of one message, and only for those (`ObserversSafeIffSinglePosts`): a larger batch
  is finalised after the counter has moved on, so a later batch can become visible
  first. In other runs posts of one message are missed too (`MisfireIsSeen`), and for
  good (`MissedForGood`): after a stall increment in exactly the cases of
  `CanMissIffExposed`, after a repeated count always.
* **Claims read off one message** speak for all only if multi-document updates are
  isolated (`PartialWriteUniformIff`, `InterleavedRenewalsSplit`).
* **A purge** does not always make the cache forget: a load that it overtakes is
  stored after it. `RemovalFinalIffClean` and `PurgeFinalIffNoneLoaded` say exactly
  when a removal is final, `StalenessBoundIsReached` how stale an answer can be.
* **Cache keys** of different queues can be equal (`LongKeysCollideIff`), and then
  the cache gives one queue the pool of the other (`CollisionMisroutes`).
* **`register` with a flavour** whose group has no pool of positive weight stores an
  entry without a pool instead of raising `NoPoolFound`.
* **JSON pointers.** `//a` is accepted, and decodes to one token; `/` decodes to one
  empty token. `RoundTripsIff` says exactly which token lists survive.
* **The marker of an empty page** of messages cannot be read: `list` raises KeyError.
* **A POST with more body than announced** is delivered with whatever happened to
  arrive; `ChunkingInvarianceIff` is exact about this.

## Model

| member | source | states |
|---|---|---|
| `FifoOrder.StepKeepsInv` | zaqar/storage/mongodb/messages.py:798-957 | every step of every client keeps the basic invariant: used bases lie between the counter at the call's start and the counter now, every accepted document is logged at its place, finalised multi-message batches are complete and counted |
| `FifoOrder.RealTimeOrder` | zaqar/storage/mongodb/messages.py:806-863 | in every run, with misfiring stall increments, lost replies of either increment, crashes and removals: if post a returned before post b began, all of a's markers are below all of b's |
| `FifoOrder.CounterOnlyGrows` | zaqar/storage/mongodb/queues.py:149-185 | in every run, with repetitions of either increment, the counter never decreases, and accepted inserts keep their order |
| `FifoOrder.StampIsLastReading` | zaqar/storage/mongodb/queues.py:149-156 | in every run the counter's timestamp is the clock reading carried by its last increment of either kind, or the initial one |
| `FifoOrder.StallsIffFiveSecondsOld` | zaqar/storage/mongodb/queues.py:153-156 | for a post in conflict, in every run: the windowed increment takes effect if and only if the last increment's reading is more than five seconds behind the worker's clock, and otherwise returns None |
| `FifoOrder.BaseIsPastCounterValue` | zaqar/storage/mongodb/messages.py:806-812 | every base marker a batch uses was the counter's value at some moment after the call began |
| `FifoOrder.VisibleBatchIsComplete` | zaqar/storage/mongodb/messages.py:849-872 | if any message of a batch of two or more has `tx` None, all of the batch was stored at consecutive markers in message order, the visible one at its own, and the counter is past them all, in every interleaving and at every crash point |
| `FifoOrder.ReturnedPostIsStored` | zaqar/storage/mongodb/messages.py:841-874 | a post that returned has all messages stored at consecutive markers in order, counted, and those still stored are visible there |
| `FifoOrder.FailedPostIsInvisible` | zaqar/storage/mongodb/messages.py:963-971 | a post that raised MessageConflict, or was refused as empty, has no message that list, count or claim selection can see |
| `FifoOrder.UncountedVisibleIffSingle` | zaqar/storage/mongodb/messages.py:959-961 | an error of another kind ends the call where it stands: until the batch is counted, what is stored of it is visible if and only if it is a single message |
| `FifoOrder.RemovedMarkerIsReused` | zaqar/storage/mongodb/messages.py:893-898 | for every origin, a run in which a removed message's marker is given to another one |
| `FifoGapFree.StepKeepsInv` | zaqar/storage/mongodb/messages.py:841-957 | every benign step keeps the gap-freedom invariant, including who owns the uncounted tail |
| `FifoGapFree.GapFree` | zaqar/storage/mongodb/messages.py:798-957 | in every benign run the stored markers are one gap-free interval in insertion order, the counter never passes its end, and at most one batch is uncounted |
| `FifoGapFree.InsertsAppendOrFailAtOnce` | zaqar/storage/mongodb/messages.py:933-939 | in every benign run each accepted document lands exactly at the end, and a batch insert fails on its first document or never |
| `FifoGapFree.DuplicateOnlyOnFirst` | zaqar/storage/mongodb/messages.py:935-939 | a duplicate hits the first document of a batch only, and because of a marker that is taken |
| `FifoGapFree.UndisturbedPost` | zaqar/storage/mongodb/messages.py:841-863 | a post nobody disturbs, from any reachable state with everything counted, stores its n messages exactly at the end, in order, and moves the counter past them, on the first attempt |
| `FifoGapFree.StallSafeIffOwnerCrashed` | zaqar/storage/mongodb/messages.py:912-931 | after any benign run a stall increment, whether its reply arrives or not, keeps all benign continuations gap-free if and only if the document the counter points at belongs to a crashed post |
| `FifoGapFree.MisfireLeadsToGap` | zaqar/storage/mongodb/queues.py:149-162 | in every state where the increment is not justified, a concrete continuation has a gap |
| `FifoGapFree.LostReplyLeadsToGap` | zaqar/storage/mongodb/queues.py:158-165 | an increment repeated after a lost reply leads to a gap from every state in which it can happen |
| `FifoGapFree.LogjamBreaks` | zaqar/storage/mongodb/messages.py:926-931 | a crashed batch is passed after exactly as many stall increments as it left uncounted documents; then the waiting post's insert is accepted at the end, and no document was touched |
| `FifoTear.MisfireHappens` | zaqar/storage/mongodb/messages.py:921-931 | for every origin, batch size and late enough clock, a benign run after which the stall increment is possible although the owner of the uncounted batch is alive |
| `FifoTear.BatchIsTorn` | zaqar/storage/mongodb/messages.py:930-939 | for every origin and batch of two or more, a run that leaves the first document of the batch in the queue, pending, and its post in conflict |
| `FifoTear.RunStaysCalm` | zaqar/storage/mongodb/messages.py:841-957 | an invariant, weaker than gap freedom, that every benign step keeps and under which no batch is torn |
| `FifoTear.CanTearIffExposed` | zaqar/storage/mongodb/messages.py:930-939 | after any benign run, a stall increment can lead to a torn batch if and only if at most one document is uncounted and a live post owns it or is about to store one there |
| `FifoTear.LostReplyCanTear` | zaqar/storage/mongodb/queues.py:158-165 | from every state in which the reply of a counting increment can be lost, its repetition can lead to a torn batch |
| `FifoObserver.ObserverMissesNothing` | zaqar/storage/mongodb/messages.py:517-543 | in every benign run of single-message posts each observer holds a prefix of the insertion order, and no message twice |
| `FifoObserver.RunKeepsIdsDistinct` | zaqar/storage/mongodb/messages.py:841-841 | in every run, removals and misfires included, no message is stored twice |
| `FifoObserver.OvertakenBatchIsMissed` | zaqar/storage/mongodb/messages.py:855-872 | for every batch size of two or more, a benign run in which an observer is handed a marker past a batch that is not yet visible |
| `FifoObserver.ObserversSafeIffSinglePosts` | zaqar/storage/mongodb/messages.py:798-806 | in benign runs, observers of posts of n messages never miss or repeat anything if and only if n is one |
| `FifoMiss.MisfireIsSeen` | zaqar/storage/mongodb/messages.py:912-931 | for every origin and late enough clock, a run of single-message posts in which a stall increment lets a message become visible behind a marker already handed out |
| `FifoMiss.MissedForGood` | zaqar/storage/mongodb/messages.py:282-298 | in every continuation, a visible message behind an observer's marker stays unseen until it is removed |
| `FifoMiss.CanMissIffExposed` | zaqar/storage/mongodb/messages.py:798-806 | after any benign run of single-message posts, a stall increment can make an observer miss a message, in a benign single-message continuation, if and only if at most one document is uncounted and a live post owns it or is about to store one there |
| `FifoMiss.LostReplyCanMiss` | zaqar/storage/mongodb/queues.py:158-165 | from every state in which the reply of a counting increment can be lost, its repetition can make an observer miss a message |
| `FifoObserver.ListPage` | zaqar/storage/mongodb/messages.py:517-543 | a page is what the cursor yields from the marker, at most `limit` documents; it falls short only if nothing is left; the marker to continue from is that of its last document, and KeyError if and only if nothing matches |
| `FifoObserver.PageAscends` | zaqar/storage/mongodb/messages.py:282-298 | a page is in marker order and holds only matching documents |
| `FifoObserver.PageLeavesTheRest` | zaqar/storage/mongodb/messages.py:282-298 | a listing from a page's last marker matches exactly what the page left out |
| `FifoObserver.PageIsARun` | zaqar/storage/mongodb/messages.py:517-543 | reading a page is a run of single observations, so results about those hold for pages of any size |
| `FifoPost.FifoMessageController.InsertBatch` | zaqar/storage/mongodb/messages.py:841-841 | the batch insert, document by document under interference, ends with all documents accepted or at the first duplicate, and takes exactly these steps |
| `FifoPost.FifoMessageController.Finalise` | zaqar/storage/mongodb/messages.py:869-872 | afterwards no stored document of the post is pending, whatever was removed or inserted meanwhile |
| `FifoPost.FifoMessageController.NextMarkers` | zaqar/storage/mongodb/messages.py:930-955 | whatever replies are lost, the batch gets new markers at the current counter: by a stall increment with the reading of this worker's clock, or, when the window check at that reading failed, by a fresh read |
| `FifoPost.FifoMessageController.Complete` | zaqar/storage/mongodb/messages.py:863-874 | counting with the reading of this worker's clock, repeated once per lost reply, finalising and returning, and no other step, leave the post stored |
| `FifoPost.FifoMessageController.Post` | zaqar/storage/mongodb/messages.py:782-971 | the whole call is a run of the protocol; success means stored, counted and visible at the returned markers, failure means invisible; the times it notes are those its clock shows at its conflicts, since the call began; it gives up only when `max_attempts` conflicts are used up or one comes more than 45 seconds after the start, and then at once |
| `FifoPost.FifoMessageController.Interfere` | zaqar/storage/mongodb/messages.py:841-957 | between any two operations the other clients take all of their steps that are possible, in order, and no step of this post |
| `Reservation.MarkersAreUnique` | zaqar/storage/mongodb/messages.py:626-648 | non-FIFO posts: in every interleaving, with repeated increments, reserved intervals are disjoint and below the counter, each message is inserted at its own place, no two share a marker |
| `Reservation.InsertedBehindAMarker` | zaqar/storage/mongodb/messages.py:626-648 | for all batch sizes, a run that inserts against the order of the markers |
| `Reservation.RepeatedReservationLeavesHole` | zaqar/storage/mongodb/queues.py:158-165 | for all sizes, a reservation repeated after a lost reply leaves a hole as large as the post |
| `ClaimLeases.LossNeedsExpiryOrRelease` | zaqar/storage/mongodb/claims.py:172-176 | in one step a claim loses a stored message only by its release or by a tag after its current expiry |
| `ClaimLeases.TakenOnlyAfterExpiryOrRelease` | zaqar/storage/mongodb/claims.py:147-176 | in every run, isolated updates or not: a message held by a and later by b was, at a moment in between, still held by a with its then current expiry reached, or about to be released |
| `ClaimLeases.NeverTakenBack` | zaqar/storage/mongodb/claims.py:207-237 | once a claim's creation has tagged, a message it does not hold never becomes its own, in particular not by a renewal whose check passed earlier |
| `ClaimLeases.RemovedForGood` | zaqar/storage/mongodb/claims.py:172-176 | a removed message is never held by any claim again |
| `ClaimLeases.ClaimWithinLimit` | zaqar/storage/mongodb/claims.py:149-176 | in every run a claim holds only messages its creation selected, and no more than its limit |
| `ClaimLeases.OneMessageSpeaksForAll` | zaqar/storage/mongodb/claims.py:79-94 | with isolated updates all messages of a claim agree on ttl and expiry, so one of them decides whether the claim exists |
| `ClaimLeases.PartialWriteUniformIff` | zaqar/storage/mongodb/claims.py:233-237 | a partial renewal write keeps the claim uniform if and only if it hits none, all, or changes nothing |
| `ClaimLeases.InterleavedRenewalsSplit` | zaqar/storage/mongodb/claims.py:233-237 | two renewals that interleave their writes leave any claim of two or more messages split |
| `ClaimLeases.SplitClaimIsReached` | zaqar/storage/mongodb/claims.py:207-237 | for all ttls, a run from an empty queue that reaches such a claim |
| `ClaimLeases.ExpiryNeverDecreases` | zaqar/storage/mongodb/claims.py:182-187 | over every run with grace >= 0 a stored message's expiry never decreases |
| `ClaimLeases.ClaimedMessagesOutliveTheirClaim` | zaqar/storage/mongodb/claims.py:172-187 | with grace >= 0 and updates taken in any parts, as long as the last part of an extension leaves out no match that carries its expiry: a message expires no earlier than its claim unless a call that writes this expiry is still on its way, concurrent renewals included |
| `ClaimLeases.ThoroughnessIsNeeded` | zaqar/storage/mongodb/claims.py:182-187 | an extension that leaves out such a match, with no other call to extend it, breaks that |
| `ClaimLeases.IsolatedClaimsAreOutlived` | zaqar/storage/mongodb/claims.py:239-248 | with isolated updates it holds whenever no extension of the claim is pending |
| `ClaimController.Controller.SelectActive` | zaqar/storage/mongodb/messages.py:338-345 | unclaimed messages, `limit` of them if there are as many, and none of those left out precedes one of them |
| `ClaimController.Controller.Get` | zaqar/storage/mongodb/claims.py:70-98 | raises if and only if nothing of the claim is live; the view lists exactly the live messages, with ttl and age read off the first of them, and under isolation it is right about every message of the claim |
| `ClaimController.Controller.Create` | zaqar/storage/mongodb/claims.py:108-198 | with updates in any parts and under any interference the call finds nothing if and only if it selected nothing, otherwise its tag ends by taking all selected messages that are unclaimed then, its extension all that expire too early then, and it answers with the claim if and only if the claim is live, listing exactly its live messages, within the limit; undisturbed, the oldest unclaimed messages are claimed and nothing else changes |
| `ClaimController.Controller.Update` | zaqar/storage/mongodb/claims.py:202-248 | with updates in any parts and under any interference, the write of a call whose check passed ends by taking all messages the claim holds then, and its extension all that expire too early then; undisturbed, it succeeds if and only if the claim is live, and then renews exactly its messages |
| `ClaimController.Controller.Delete` | zaqar/storage/mongodb/messages.py:384-400 | with the update in any parts and under any interference, it ends by releasing all messages the claim holds then, and the claim holds nothing afterwards; undisturbed, its messages are claimable at once and the others unchanged |
| `ClaimController.TaggedMeans` | zaqar/storage/mongodb/claims.py:158-187 | tagging and extending claims exactly the selected messages |
| `ClaimController.RewrittenMeans` | zaqar/storage/mongodb/claims.py:233-248 | writing and extending renews exactly the claim's messages |
| `ClaimController.ClaimIsWhole` | zaqar/storage/mongodb/claims.py:217-224 | with isolated updates a claim with one live message has only live ones, all alike |
| `ClaimController.FreshClaimHoldsNothing` | zaqar/storage/mongodb/claims.py:131-131 | in every run a claim id that no creation has used holds no message |
| `CacheStaleness.BoundedStaleness` | zaqar/common/decorators.py:115-158 | in every interleaving of getters and purging removers, a value a getter answers was the origin's no longer ago than the TTL plus the delay between its load and its store |
| `CacheStaleness.StalenessBoundIsReached` | zaqar/common/decorators.py:115-158 | for every TTL and delay, a run reaches that bound although the entry was purged |
| `CacheStaleness.UndisturbedGet` | zaqar/common/decorators.py:130-154 | a getter nobody disturbs: an entry no older than the TTL answers; otherwise the origin does, and its value is cached with the present time unless the condition fails, or the getter raises |
| `CacheStaleness.RemovalFinalIffClean` | zaqar/common/decorators.py:117-126 | no getter that begins after the origin's copy is deleted is answered until the key is written again, if and only if at the delete no entry is fresh and no getter is between load and store |
| `CacheStaleness.PurgeWindow` | zaqar/common/decorators.py:117-126 | a whole purging remover, with anything interleaved, is final if no getter of the key holds a loaded value at the purge and none loads before the delete |
| `CacheStaleness.PurgeFinalIffNoneLoaded` | zaqar/common/decorators.py:117-126 | purge and delete in a row are final, whatever the cache held, if and only if no getter of the key holds a loaded value |
| `Catalog.KeysCollideIff` | zaqar/storage/pooling.py:57-61 | cache keys of slash-free queue names are equal if and only if the queues are equal and the projects are, up to None and the literal "None" |
| `Catalog.SlashesCollide` | zaqar/storage/pooling.py:57-61 | for all names, a slash can move between the queue's name and the project's without changing the key |
| `Catalog.LongKeysCollideIff` | zaqar/storage/pooling.py:57-61 | keys of queues with names of different lengths are equal if and only if the longer name ends in a slash and the shorter one, and what precedes moves over to the project |
| `Catalog.EqualLengthKeysCollideIff` | zaqar/storage/pooling.py:57-61 | keys of equally long queue names are equal if and only if the names are, and the projects print alike |
| `Catalog.ProperIsAlone` | zaqar/storage/pooling.py:57-61 | among queue names without slashes and projects other than the literal "None", no two queues share a key |
| `Catalog.Catalog.CollisionMisroutes` | zaqar/storage/pooling.py:468-479 | two catalogued queues with one key and different pools: after a lookup of one, the cache gives its pool to the other |
| `Catalog.Catalog.GetPoolId` | zaqar/storage/pooling.py:468-479 | for every name, the answer is the pool of a catalogued queue with the same key; for a queue alone with its key it is the catalogue's, whatever is cached |
| `Catalog.Catalog.GetDriver` | zaqar/storage/pooling.py:672-687 | the driver is that of the pool asked for, if and only if a pool has this name or its driver was built before; otherwise the pool does not exist; built drivers are kept |
| `Catalog.Catalog.Lookup` | zaqar/storage/pooling.py:650-670 | a catalogued queue alone with its key gets the driver of its own pool if and only if that pool exists or its driver was built before, an uncatalogued one that of the virtual pool or none; other queues that of one with the same key; exactly the driver used is built |
| `Catalog.Catalog.ChoosePool` | zaqar/storage/pooling.py:508-520 | a pool is chosen if and only if the group has one of positive weight, and it is the one whose interval of the group's weights the draw falls in |
| `Catalog.Catalog.RegisterQueue` | zaqar/storage/pooling.py:481-535 | all cases and all names: entries are never overwritten, unknown flavours raise, the drawn pool of the right group is stored, and nothing else changes |
| `Catalog.Catalog.DeregisterQueue` | zaqar/storage/pooling.py:537-550 | removes exactly that entry and its cached value, and keeps the cache in agreement |
| `Catalog.Catalog.Perform` | zaqar/storage/pooling.py:468-550 | whatever call or change of pools happens, no entry but a deregistered one changes, and drivers are built for existing pools only |
| `Catalog.Catalog.Run` | zaqar/storage/pooling.py:481-670 | over whole runs with arbitrary names and cache expiry, a queue keeps its pool until it is deregistered, and as long as no other queue with its key is registered every lookup gets that pool's driver, if and only if at that moment the pool exists or its driver was built before |
| `Weighted.Spectrum` | zaqar/common/storage/select.py:34-44 | the table gives each object of positive weight its interval of running totals; it is empty if and only if the total is zero |
| `Weighted.Scan` | zaqar/common/storage/select.py:53-58 | the row found is the one whose interval holds the selector; the scan falls through only outside the spectrum |
| `Weighted.Select` | zaqar/common/storage/select.py:22-58 | the chosen object owns the selector; None if and only if no weight is positive or the generator leaves its range |
| `Weighted.OwnerIsUnique` | zaqar/common/storage/select.py:54-57 | no selector belongs to two objects |
| `Weighted.ChosenInProportion` | zaqar/common/storage/select.py:37-57 | an object of positive weight w is chosen by exactly w of the selectors, any other by none |
| `Weighted.SomeoneIsChosen` | zaqar/common/storage/select.py:52-57 | every selector of the spectrum chooses an object |
| `Weighted.TotalPositiveIff` | zaqar/common/storage/select.py:37-48 | there is something to choose from if and only if some weight is positive |
| `Paging.FilterExact` | zaqar/storage/swift/utils.py:84-112 | the flat specification of the paged loops holds exactly the wanted ids, in order, once each |
| `Paging.FilterContinues` | zaqar/storage/swift/utils.py:112-118 | a page and the listing that continues after it make up the whole listing |
| `SwiftListing.Container.FilterMessages` | zaqar/storage/swift/utils.py:75-118 | for every page size and limit, the first `limit` existing, unskipped objects after the marker, and a marker from which the rest of the listing follows |
| `SwiftListing.Container.List` | zaqar/storage/swift/messages.py:89-141 | the same for pages of twice the limit; every name is after the marker, exists, is by another client unless echo is on and in no claim unless claimed ones are included; no marker if and only if nothing follows |
| `SwiftListing.Container.ListAll` | zaqar/storage/swift/messages.py:104-144 | following the markers gives the whole filtered listing, without loss or repeats: exactly the names that exist and that neither the echo nor the claim filter skips |
| `Notifier.NotifierDriver.ListPage` | zaqar/storage/mongodb/subscriptions.py:68-88 | the cursor that skips up to the marker, stops at the limit and moves the marker with each record yields the front of the listing after the marker, and the id of its last record |
| `Notifier.NotifierDriver.Post` | zaqar/notification/notifier.py:49-76 | for every page limit the loop ends having dispatched exactly the deliverable subscriptions, in id order |
| `Notifier.DispatchedOnceEach` | zaqar/notification/notifier.py:58-72 | those are the ones of the queue that are confirmed, or say nothing about it, or all of them if no confirmation is required, each exactly once |
| `RedisGc.RoundKeepsUnderway` | zaqar/storage/redis/messages.py:311-336 | a round keeps all live ids in order, and although the offset moves by the whole page, the dead ids behind it never outnumber those removed |
| `RedisGc.ThinnedHalvesTheDead` | zaqar/storage/redis/messages.py:311-336 | a pass at least halves the dead ids, and one that removes nothing proves that none are left |
| `RedisGc.HalfCanSurvive` | zaqar/storage/redis/messages.py:311-336 | for every batch size, two batches of dead ids lose exactly half in one pass |
| `RedisGc.PassesConverge` | zaqar/storage/redis/messages.py:308-336 | n passes leave exactly the live ids, in order, if fewer than 2^n were dead |
| `RedisGc.RemainingExact` | zaqar/storage/redis/messages.py:331-334 | an id is kept if and only if its message exists |
| `RedisGc.MessageController.RemoveDead` | zaqar/storage/redis/messages.py:324-336 | removing dead ids one by one leaves the page's live ids in place, and the count is right |
| `RedisGc.MessageController.CollectSet` | zaqar/storage/redis/messages.py:309-336 | terminates for every batch size; the set is thinned, other sets are untouched |
| `RedisGc.MessageController.Gc` | zaqar/storage/redis/messages.py:282-338 | every indexed set goes through one pass, no other set changes, the result is the number of ids removed, and exactly the expired claims of the indexed queues are gone |
| `NotificationParser.NotificationProtocol.DataReceived` | zaqar/transport/websocket/protocol.py:240-268 | the in-place buffer and state updates compute the parser's step function |
| `NotificationParser.ChunksFuse` | zaqar/transport/websocket/protocol.py:240-268 | for arbitrary bytes, two chunks in turn have the effect of both at once, as long as the connection is open |
| `NotificationParser.ActsExactlyWhenComplete` | zaqar/transport/websocket/protocol.py:251-268 | the server acts on a prefix of a well-formed POST if and only if the head and the announced body bytes are there |
| `NotificationParser.AnyChunking` | zaqar/transport/websocket/protocol.py:240-268 | a request of the announced length is acted on at its last chunk only, as if received at once |
| `NotificationParser.ChunkingInvarianceIff` | zaqar/transport/websocket/protocol.py:240-268 | every split of a POST is delivered once, on its last chunk, with exactly its body and one 200 status, if and only if the body has the announced length |
| `NotificationParser.NoSubscriberIsRefused` | zaqar/transport/websocket/protocol.py:262-268 | a POST to no subscriber is answered 400 once and never handed on |
| `NotificationParser.LineIsUnderstood` | zaqar/transport/websocket/protocol.py:243-249 | a line of three words: POST addresses the second word without its first byte, any other verb is another verb |
| `NotificationParser.UnparsableIff` | zaqar/transport/websocket/protocol.py:244-244 | a line is not understood if and only if it does not have three words |
| `NotificationParser.PostIsDelivered` | zaqar/transport/websocket/protocol.py:240-268 | for all bytes of a POST with the announced length and every split: on the last chunk and not before, the body goes to the subscriber named in the path, with one 200, or is answered by one 400 if the path names none |
| `NotificationParser.OtherVerbIsRefused` | zaqar/transport/websocket/protocol.py:245-247 | another verb is answered by one 405, whatever follows and however it is split |
| `NotificationParser.OddLineIsDropped` | zaqar/transport/websocket/protocol.py:244-244 | a line without three words ends the connection without an answer, however it is split |
| `NotificationParser.NoLengthIsRefused` | zaqar/transport/websocket/protocol.py:251-259 | a POST without a content length is answered by one 400, one whose length is no number by nothing, however it is split |
| `JsonPointer.ReplacingInOrderIsUnescaping` | zaqar/transport/validation.py:177-178 | on every string the two global replacements equal one left-to-right unescape (section 4 of RFC 6901) |
| `JsonPointer.OtherOrderAgreesIff` | zaqar/transport/validation.py:178-178 | the replacements in the other order give the same if and only if `~01` does not occur |
| `JsonPointer.UnescapeEscape` | zaqar/transport/validation.py:165-174 | unescaping undoes escaping on every token |
| `JsonPointer.Decode` | zaqar/transport/validation.py:165-179 | succeeds if and only if the pointer is acceptable, otherwise fails with the first complaint; returns every part unescaped and trimmed; the pointer of any non-empty list of non-empty, trimmed tokens gives back these tokens |
| `JsonPointer.AcceptedIff` | zaqar/transport/validation.py:181-201 | the checks pass if and only if, of the parts after the leading slash, no inner one is blank, a last one is not empty, two are not both blank, and all escapes are complete |
| `JsonPointer.ComplaintIs` | zaqar/transport/validation.py:181-201 | which complaint is raised first, in terms of the parts after the leading slash |
| `JsonPointer.RoundTripsIff` | zaqar/transport/validation.py:165-201 | a token list survives encoding and decoding if and only if it is a non-empty list of non-empty, trimmed tokens, or the single empty token |
| `Backoff.TotalStall` | zaqar/storage/mongodb/utils.py:98-102 | if all N attempts fail, the sleeps before jitter add up to max_sleep * (N - 1) / 2 |
| `Backoff.DefaultStallTime` | zaqar/storage/mongodb/messages.py:832-839 | with the default configuration all sleeps add up to 49.95 seconds, those before attempt 960 already to more than 46 |
| `Backoff.TotalSleepBounds` | zaqar/storage/mongodb/utils.py:98-102 | whatever is drawn, jitter adds between 0 and max_jitter per attempt |
| `Backoff.CalculateBackoff` | zaqar/storage/mongodb/utils.py:89-102 | raises ValueError exactly for negative bounds or an attempt out of range; otherwise the sleep is at least zero and below max_sleep + max_jitter, unless both are zero |
| `Backoff.SleepIs` | zaqar/storage/mongodb/utils.py:98-102 | the sleep is the attempt's share of max_sleep plus the drawn share of max_jitter |
| `PostTiming.AttemptsUsableIff` | zaqar/storage/mongodb/messages.py:900-910 | when the clock advances by at least each sleep, all attempts can be used up in time if and only if the sleeps before the last one take less than 46 seconds |
| `PostTiming.DefaultsRunOutOfTime` | zaqar/storage/mongodb/messages.py:900-910 | at the defaults a post that raises MessageConflict has run out of time, after at most 961 attempts |

## Left out

- The internals of pymongo, redis-py, swiftclient, dogpile, msgpack and SQLAlchemy: foreign code; their operations are atomic steps.
- Queue creation and deletion, and `QueueDoesNotExist`: the models are about one existing queue; the counter starts at any value.
- Message removal in the gap-freedom results: a removed message frees its marker. The results of `FifoOrder` cover removals.
- `pop`, `get` and `bulk_get` of MongoDB messages: they do not filter on `tx`, so batch visibility does not extend to them.
- The body, ttl and client id of messages in the FIFO model, and the echo and claimed filters of observers: they do not affect markers.
- The statistics and log lines of `post`.
- FifoPost.FifoMessageController.Post: backoff sleeps are interference points without a duration; their lengths are in `Backoff`.
- FifoOrder.FailedPostIsInvisible: covers MessageConflict and empty batches; a call ended by any other error is a crash in `Fifo`, and `UncountedVisibleIffSingle` says what it leaves visible.
- ClaimController.Controller.Delete: the last part of an update, here and in the controller's other calls, takes all documents that match at that moment; a database cursor may pass over one that begins to match behind it, as the steps of `Claims` allow.
- `to_oid` and malformed claim ids: they raise or return before any step.
- Claims in Redis (their Lua scripts are not part of this model) and in Swift (availability there does not depend on expiry).
- Redis paging by rank: `rank + 1 if rank else 0` restarts after the first message, so completeness of pages does not hold.
- RedisGc.MessageController.Gc: expiry and posting during a pass are not modelled.
- SwiftListing.Container.List: limits below one, reverse listings, and errors other than 404 are not modelled; the container does not change during a listing.
- Catalog.Catalog.Run: calls run one after the other; concurrent `register` calls and default-pool routing of uncatalogued queues may change routing.
- Notifier.NotifierDriver.Post: what a task does with a subscription, and the pooled subscription controller, which it skips.
- NotificationParser.NotificationProtocol.DataReceived: the header parser is a parameter that maps the header block to a Content-Length.
- JsonPointer.Decode: whitespace above U+00FF is not recognised as such.
- Backoff.CalculateBackoff: exact numbers, no floating-point rounding; the random draw is a parameter.
- WSGI and websocket resources, schemas, authentication, policy, bootstrap, command line and configuration: plumbing.
- Signing, webhook, mail and trust tasks: input and output.
