# Verified model of tt-scrap

tt-scrap is a Go service that resolves TikTok and Instagram media and delivers it,
optionally through Telegram. Its hard logic is concurrent state: identities owned by
one process at a time, media buffers filled by several connections while they are
being read, caches, delivery verdicts and account health. This project models that
logic in Dafny and proves what it keeps over every run.

| files | what they model |
|---|---|
| `WriteBehind`, `ProxyHealth`, `Ownership`, `OwnershipSafety` | the identity pool's write-behind store and the ownership protocol of any number of processes over one PostgreSQL schema |
| `Leases`, `LeaseSafety` | leasing identities: selection, queueing, balance |
| `Spool`, `SpoolRuns`, `SpoolSafety`, `SpoolBuffer` | media buffers: writers, readers, RAM budget, spilling |
| `Ranges`, `SpoolContents`, `RangedDownload`, `DownloadRuns`, `DownloadSafety`, `DownloadProgress` | ranged downloads filling a buffer |
| `Lru`, `ExpiryHeap`, `Cache` | the cache with deadlines |
| `Delivery`, `DeliverySafety` | one operation's retry allowance, its Telegram calls and the final verdict |
| `AccountHealth`, `Admission`, `Revival`, `Scheduler`, `Attempts` | Instagram accounts: durable health, admission while it is being stored, session replacement, choice of account, one request's attempts |
| `Protobuf`, `Xtea`, `XteaCbc`, `SdkPayload`, `Mp4`, `Mp4Search`, `Mp4Movie` | wire formats |

How concurrency is modelled: every section the code runs under a lock is one event
of a state machine, and a run is any sequence of enabled events, with failures of
connections, disks and statements among them. A class gives the same locked section
as a method, proved to change its fields exactly as the event's function says.

The database is reduced to rows, a token, one advisory lock held by a living backend,
and transactions that end as committed, rolled back, or committed while the client
sees an error. HTTP servers may answer anything; what is assumed of them is written
where it is used (`RangedDownload.Honest`, `Delivery.Honest`, `Delivery.Withheld`).

Run `dafny verify dfyconfig.toml`, with `--resource-limit 2000000`.

Five properties that the source or its comments lead one to expect are false in general; each
is given with a run or an input that shows it, and with the exact condition under which it
holds:

* reconnecting "ends only that exact backend": not when the start time was not
  recorded and the pid has been reused (`OwnershipSafety.UnknownStartCanEndAnother`);
  exactly when it was, or no other process has the pid (`OwnershipSafety.EndsOnlyOwnBackendIff`);
* a verdict is safe for streamed uploads: not when a replaced upload is refused after the
  last step began (`DeliverySafety.OverlappingUploadsCanMislead`); exactly when none is, or
  some upload was accepted (`DeliverySafety.StreamIsSoundExactlyWhen`);
* a stored death belongs to the stored session: not when a session write took effect but
  reported an error (`Revival.AmbiguousReplacementCanBeCondemned`); exactly when memory and
  database agree on the session (`Revival.StoredDeathIsExact`);
* an encrypted SDK payload can be decrypted: not when an incompressible payload near
  16 MiB grows past the limit on the way (`SdkPayload.IncompressibleIsRefused`); exactly when
  its deflated form leaves room (`SdkPayload.SdkPayloadReadsBack`);
* the movie found is the first of the file's boxes: not when its size is left open
  (`Mp4.OpenEndedMovieIsRefused`) or it begins too far in (`Mp4Search.SomeMovieIsMissed`);
  exactly when it states a size within the limit (`Mp4.WalkFindsFirstMoov`) and begins before
  the place that the sizes of the boxes take the last window to (`Mp4Search.FindMovie`).

## Model

| member | source | states |
|---|---|---|
| WriteBehind.Pool.CheckpointLocked | internal/identity/store.go:70-83 | a checkpoint replaces the identity's pending one, marks it dirty, counts, and wakes the saving loop; an unencodable one changes nothing |
| WriteBehind.Pool.CollectLocked | internal/identity/store.go:94-112 | the batch holds exactly the pending checkpoint of every dirty identity and the health of every proxy with unsaved health, once each; there is none exactly when such a health cannot be encoded |
| WriteBehind.Pool.SavedLocked | internal/identity/store.go:155-170 | a save forgets exactly the checkpoints it wrote that are still pending; newer ones stay dirty; `saved` reaches what the save covers and never goes back, as every proxy's saved version; those who wait are woken |
| WriteBehind.CheckpointKeepsRam | internal/identity/store.go:52-83 | dirty means pending, and a pending checkpoint is its identity's newest |
| WriteBehind.SaveKeepsRam | internal/identity/store.go:155-168 | the same after any save of a genuine batch, however old |
| WriteBehind.SaveLeavesOnlyNewer | internal/identity/store.go:94-168 | a confirmed save leaves exactly those identities unsaved whose leases finished after it was collected, and `saved` tells of all checkpoints before that |
| WriteBehind.SavedHealthIsExact | internal/identity/store.go:163-165 | a proxy's saved version rises to what was written, and by nothing else |
| WriteBehind.SaveSettlesHealth | internal/identity/store.go:94-168 | with no change in between, no proxy's health is left unsaved |
| WriteBehind.SaveLeavesOnlyChanged | internal/identity/store.go:94-168 | with changes in between, exactly the proxies that changed are |
| ProxyHealth.StepKeepsInv | internal/identity/store.go:94-314 | every event of every process, and every change of a proxy's health, keeps the invariant of the stored health, on top of the ownership protocol's |
| ProxyHealth.SavedHealthIsStored | internal/identity/store.go:94-168 | in every run of any number of processes, while its token is stored a process's proxy with nothing unsaved is stored as it is, and what is stored lies between the version last confirmed and the current one |
| ProxyHealth.StaleOwnerSparesHealth | internal/identity/pool.go:311-316 | stored health never goes back, and once a newer token is stored an older owner never changes it |
| ProxyHealth.HealthCanBeSaved | internal/identity/store.go:284-314 | from every reachable state a confirmed owner can save its proxies' health, and then none is unsaved |
| Ownership.RunKeepsInv | internal/identity/store.go:94-314 | every event of every process keeps the protocol's invariant |
| OwnershipSafety.CommitIsFenced | internal/identity/store.go:172-257 | a save becomes visible only on the backend that holds the lock, while the stored token is its process's |
| OwnershipSafety.OneLivingOwner | internal/identity/store.go:172-216 | at most one process is connected and confirmed as owner on a living backend |
| OwnershipSafety.RunGoesForward | internal/identity/store.go:114-153 | stored versions never go back, and only the current or a later owner writes |
| OwnershipSafety.StaleOwnerNeverOverwrites | internal/identity/pool.go:311-316 | once another process loaded the state and stored its token, an older one never changes a row again, even after the lock is free |
| OwnershipSafety.CurrentOwnerIsOnlyWriter | internal/identity/pool.go:183-316 | while its token is stored, every row is one the process loaded or one its own lease left |
| OwnershipSafety.NoCheckpointIsLost | internal/identity/lease.go:182-218 | every checkpoint is stored, in its or a newer version, or pending in its or a newer version, and dirty says which |
| OwnershipSafety.FlushIsSound | internal/identity/store.go:466-493 | when flush may return nil, everything checkpointed before the call is stored, and stays so in every longer run |
| OwnershipSafety.FlushCanReturn | internal/identity/store.go:284-314 | from every reachable state a confirmed owner can save, and then nothing is dirty and `saved` has reached the checkpoints, so a waiting `flush` returns nil |
| OwnershipSafety.OwnerCanReturn | internal/identity/store.go:192-243 | an owner that lost its connection is confirmed again once the lock is free if and only if its token is still the stored one; otherwise it stops |
| OwnershipSafety.EndingFreesTheLock | internal/identity/store.go:218-243 | ending its own old backend frees the lock and keeps everything of the owner |
| OwnershipSafety.CleanOwnerLeavesFinalState | internal/identity/store.go:404-446 | an owner with nothing unsaved leaves each identity exactly as its last lease left it |
| OwnershipSafety.EndsOnlyOwnBackendIff | internal/identity/store.go:188-243 | reconnecting can end only its own old backend if and only if the start time is known or no other process has the remembered pid |
| OwnershipSafety.UnknownStartCanEndAnother | internal/identity/store.go:218-243 | a run in which the start time is unknown and another process's backend can be ended |
| Leases.Select | internal/identity/lease.go:105-134 | the place chosen for new work is an idle, unreserved one with the least (assignments, last selected), the first of its equals; none only if there is none; `eligible` exactly when some place is not cooling down |
| Leases.Pool.TakeAny | internal/identity/lease.go:66-169 | what one pass for new work changes: taken and counted, queued within the limit, or refused, and for which reason, also when no session can be made |
| Leases.Pool.TakeOwn | internal/identity/lease.go:61-168 | what one pass for an identity's own media changes: an earlier reservation is dropped first; then taken uncounted, counted as waiting, or refused, also for an unknown identity |
| Leases.OwnPassExactly | internal/identity/lease.go:83-103 | an identity's own media get it exactly when it is known, neither it nor its route rests, and it is idle; a busy one is waited for, within the limit |
| LeaseSafety.StepKeepsInv | internal/identity/lease.go:36-217 | every step keeps: `waiting` and `queued` exact, one holder a busy identity |
| LeaseSafety.OneHolder | internal/identity/lease.go:146-159 | no identity is ever held by two operations |
| LeaseSafety.WaitingIsExact | internal/identity/lease.go:45-68 | `waiting` is the number of operations queued for the identity, and the queue keeps its limit |
| LeaseSafety.NewWorkSparesReserved | internal/identity/lease.go:117-119 | new work never takes an identity that another operation holds or waits for |
| LeaseSafety.RestingIsLeftAlone | internal/identity/lease.go:92-115 | an identity that was sent to rest is held by nobody until then, in any run of earlier passes |
| LeaseSafety.LastTakenIsNewest | internal/identity/lease.go:120-152 | in every run the identity taken last for new work counts as selected after all others |
| LeaseSafety.AnyPassExactly | internal/identity/lease.go:104-169 | new work that finds no identity waits exactly when some is merely in use and the queue has room |
| LeaseSafety.SequentialUseIsBalanced | internal/identity/lease.go:120-152 | in sequential work without cooldowns the assignments of any two places differ by at most one |
| Spool.ScanIsLongestPrefix | internal/spool/spool.go:268-283 | over disjoint ranges the scan's result is the length of the longest prefix of finished writes |
| Spool.OpenKeepsRegions | internal/spool/spool.go:152-161 | opening a disjoint range keeps the order, the disjointness and the ready prefix |
| Spool.UnwrittenIsAhead | internal/spool/spool.go:268-283 | the next byte of an unfinished range is never inside the ready prefix |
| Spool.RefusedExactlyWhen | internal/spool/spool.go:182-200 | a write is refused exactly when the buffer has failed, with its error, or the write would run over |
| Spool.NoRoomExactlyWhen | internal/spool/spool.go:226-252 | an append fails for want of room exactly when it needs RAM that is not admitted and cannot be spilled; RAM is tried first |
| Spool.GrowthIsBounded | internal/spool/spool.go:229-232 | growth at least doubles unless the file limit or the length say otherwise, and reserves at most twice what is needed or the smallest step |
| Spool.ReadEndsExactly | internal/spool/spool.go:360-383 | a read ends without an error exactly when all it asks for has arrived; else with the end exactly when the buffer is complete, and with the buffer's error only past what has arrived |
| Spool.FirstFailureStays | internal/spool/spool.go:309-318 | the first failure of an incomplete buffer is what writers, readers past the ready bytes and `Complete` are told |
| Spool.MadeExactly | internal/spool/spool.go:77-95 | a buffer of known size is made in RAM exactly when that is admitted, else in a file, and not at all only if none can be made |
| Spool.ClosedIsOver | internal/spool/spool.go:320-343 | a closed buffer gives nothing and takes nothing |
| Spool.GrowingCompletes | internal/spool/spool.go:293-307 | a growing buffer takes the size it has when completed |
| SpoolBuffer.Store.Reserve | internal/spool/spool.go:44-56 | RAM is reserved exactly when file limit and budget allow |
| SpoolBuffer.Buffer.constructor | internal/spool/spool.go:77-95 | a new buffer is RAM if admitted, else a file; the budget is charged accordingly |
| SpoolBuffer.Buffer.Writer | internal/spool/spool.go:152-161 | the binary search inserts the range, overlapping others or not, before the first that starts no earlier, and the list stays sorted |
| SpoolBuffer.Buffer.AdvanceLocked | internal/spool/spool.go:268-283 | the loop computes the scan's prefix and never moves `ready` back |
| SpoolBuffer.Buffer.BeginWrite | internal/spool/spool.go:182-208 | the checks at the head of a write, and the pin |
| SpoolBuffer.Buffer.EndWrite | internal/spool/spool.go:209-224 | the tail of a write: unpin, then count the bytes unless the buffer failed |
| SpoolBuffer.Buffer.AppendLocked | internal/spool/spool.go:226-252 | an append grows, spills or fails as the budget and disk say |
| SpoolBuffer.Buffer.MakeRoomLocked | internal/spool/spool.go:226-266 | room for an append: more reserved RAM, or the file and all RAM given back |
| SpoolBuffer.Buffer.UnpinLocked | internal/spool/spool.go:408-414 | the last pin on a closed buffer gives its RAM back |
| SpoolBuffer.Buffer.Complete | internal/spool/spool.go:293-307 | completes exactly when the prefix reaches the size |
| SpoolBuffer.Buffer.Close | internal/spool/spool.go:322-343 | closing drops the bytes and gives RAM back unless it is pinned |
| SpoolBuffer.Buffer.ReadAt | internal/spool/spool.go:355-384 | a read returns ready bytes only, and the error that `Spool.ReadEndsExactly` characterises, also for a negative offset |
| SpoolRuns.StepIsOk | internal/spool/spool.go:182-343 | every step keeps ranges, copies in progress, RAM accounting and the ready bytes |
| SpoolSafety.ReadyIsLongestPrefix | internal/spool/spool.go:268-283 | in every run `ready` is the length of the longest prefix of finished writes |
| SpoolSafety.ReadyBytesNeverChange | internal/spool/spool.go:182-224 | no event of any run changes a byte below `ready` or takes `ready` back |
| SpoolSafety.CompletesExactlyWhenWhole | internal/spool/spool.go:293-307 | a buffer of known size completes if and only if every byte was written |
| SpoolSafety.NothingWritesAfterComplete | internal/spool/spool.go:182-224 | a complete buffer has no write in progress and refuses every new one |
| SpoolSafety.ReadersSeeFinalContents | internal/spool/spool.go:358-515 | whatever a reader received between any events is the slice of the final contents where it started |
| SpoolSafety.EndMeansWhole | internal/spool/spool.go:360-383 | in every run a reader that is told of the end has received everything from its start to the final size of a complete buffer |
| SpoolSafety.FailedStaysFailed | internal/spool/spool.go:209-224 | in every run a failed buffer gets no further, is never completed, and keeps its error until it is closed |
| SpoolSafety.WritersStaySorted | internal/spool/spool.go:152-161 | in every run the list that a new writer's binary search runs over is sorted |
| SpoolSafety.RamIsConserved | internal/spool/spool.go:44-63 | `used` is the sum of all reservations and within the budget; pinned RAM is never spilled; growing buffers keep capacity equal to reservation |
| SpoolSafety.FileLimitIsKept | internal/spool/spool.go:44-56 | in every run no buffer has more RAM than one file may have |
| SpoolSafety.ClosedStoreIsEmpty | internal/spool/spool.go:322-343 | when all buffers are closed and all calls have left, every reservation has been given back, once |
| SpoolSafety.BuffersCanComplete | internal/spool/spool.go:293-307 | there is a run that makes a buffer, writes it and completes it, so the statements above are not empty |
| Ranges.PartsTile | internal/platform/download.go:491-505 | the parts are non-empty, follow each other from the first byte to the last, and are at most two a connection |
| Ranges.PartsAreNoLargerThanNeeded | internal/platform/download.go:491-505 | parts are never smaller than the minimum, and any smaller ones that are not would be more than two a connection |
| Ranges.ContentRangeReadsBack | internal/platform/download.go:445-460 | a Content-Range of RFC 9110 section 14.4 is read back, and accepted exactly when it lies in a file whose size fits 64 bits |
| Ranges.ContentRangeIsInside | internal/platform/download.go:445-460 | whatever is read is a range inside a file of the size it states |
| Ranges.SignsAreRead | internal/platform/download.go:445-460 | a sign may come before digits; the 64-bit borders are exact |
| Ranges.StrongETagIsQuoted | internal/platform/download.go:420-427 | exactly quoted tags can pin a file; weak ones never |
| SpoolContents.StepIsFaithful | internal/spool/spool.go:182-252 | a buffer fed the bytes of one file where they belong holds only that file's bytes |
| SpoolContents.CompleteIsWholeFile | internal/spool/spool.go:293-307 | such a buffer, complete at the file's length, is the file |
| RangedDownload.ChosenAims | internal/platform/download.go:215-264 | whatever honest servers answer first, the chosen response belongs to one version, pinned by its tag if parts remain |
| RangedDownload.TakenExactlyWhen | internal/platform/download.go:229-260 | which first answers are taken, and as what: a whole file if and only if it is not too large; a part if and only if parts were asked for, it begins the file, and the rest can be fetched safely or the second answer is a whole file |
| RangedDownload.AcceptedBelongs | internal/platform/download.go:575-606 | the bytes of an accepted part response are the pinned version's, where the part resumes |
| RangedDownload.JudgedExactly | internal/platform/download.go:575-596 | which part responses are taken, and which say that the file changed |
| DownloadRuns.ResponsesDecide | internal/platform/download.go:536-606 | a changed file fails the job for good, an unusable response leaves the part to be asked for again, a good one is copied from where the part stands |
| DownloadRuns.ClaimKeepsInv | internal/platform/download.go:510-522 | claiming the next part opens its range, which overlaps no other, and keeps the invariant |
| DownloadRuns.RespondKeepsInv | internal/platform/download.go:575-606 | accepting, refusing or failing on any response keeps the invariant |
| DownloadSafety.OneRepresentation | internal/platform/download.go:327-386 | a download that succeeds holds every byte of one version, the one its ETag pins when parts were fetched |
| DownloadSafety.DownloadIsOneVersion | internal/platform/download.go:215-386 | the same from the first request on, including the fallback without a validator |
| DownloadSafety.FinishCompletes | internal/platform/download.go:524-534 | when `finish` returns nil every byte has been written, so `Complete` fails only if the buffer was failed or closed |
| DownloadSafety.FinishedPartsAreFull | internal/platform/download.go:510-534 | and every part's writer is full |
| DownloadSafety.EachPartOnce | internal/platform/download.go:510-522 | racing workers get the indexes 0, 1, 2, … between them, none twice, none skipped |
| DownloadProgress.DownloadsCanSucceed | internal/platform/download.go:327-534 | for every file and every plan to fetch it in parts whose first response arrives whole, there is a run that succeeds, so the statements above are not empty |
| DownloadProgress.PlainDownloadsCanSucceed | internal/platform/download.go:327-386 | for every file that the first response carries whole, its length known or not, there is a run that succeeds |
| DownloadProgress.WholeAnswersSuffice | internal/platform/download.go:252-386 | so a server that ignores ranges and sends a whole file, not too large, is enough |
| Lru.EvictsOnlyTheOldest | internal/core/cache.go:54-80 | a set loses another live entry if and only if the cache is full of live entries, the key is new, and that one was used longest ago |
| Lru.SetKeepsBounded | internal/core/cache.go:54-80 | keys stay unique and within capacity |
| Lru.GetIsExact | internal/core/cache.go:36-50 | a get finds exactly the live entry of its key |
| Lru.RecentlySetIsFound | internal/core/cache.go:36-80 | a value is found again before its deadline after any calls on fewer than `capacity` other keys |
| Lru.GetMovesToFront | internal/core/cache.go:36-50 | a get makes what it finds the most recently used, and changes nothing else |
| Lru.RecentlyFoundIsFound | internal/core/cache.go:36-80 | what a get found is found again before its deadline after any calls on fewer than `capacity` other keys |
| Cache.Cache.Get | internal/core/cache.go:36-50 | map, list and heap together do what the bounded map does; expired entries go |
| Cache.Cache.SetUntil | internal/core/cache.go:54-80 | the same for setting: purge, replace or evict and insert |
| Cache.Cache.Remove | internal/core/cache.go:81-85 | an entry leaves all three structures, which stay consistent |
| Cache.Cache.Delete | internal/core/cache.go:86-92 | exactly that key is gone |
| Cache.Cache.Clear | internal/core/cache.go:93-99 | nothing is left in map, list and heap |
| Cache.Cache.Purge | internal/core/cache.go:58-60 | popping the heap's root while it is expired leaves exactly the live entries |
| Cache.Cache.Swap | internal/core/cache_expiry.go:9-12 | two entries change places and know it |
| Cache.Cache.Push | internal/core/cache_expiry.go:13-17 | a new entry joins the heap at its place |
| Cache.Cache.HeapRemove | internal/core/cache_expiry.go:18-25 | any entry leaves the heap, which stays one |
| ExpiryHeap.RootIsEarliest | internal/core/cache_expiry.go:8-8 | the heap's root has the earliest deadline |
| Delivery.Operation.AllowRetry | internal/core/operation.go:56-74 | a retry is counted only while allowed, and granted only if the context outlives it |
| Delivery.Operation.BeforeDeliveryCommit | internal/core/operation.go:95-112 | the gate: nothing passes after the verdict; passing means a message may exist |
| Delivery.Call | internal/httpapi/telegram_client.go:69-159 | which replies confirm, which prove rejection, and which leave the outcome open |
| Delivery.DeliveryEvent.Finish | internal/httpapi/delivery_event.go:37-55 | how an event ends from its error, its refusal and its successes, and what becomes of the failed stage |
| Delivery.SendAlbum | internal/httpapi/telegram.go:554-608 | the loop makes one call a batch and stops at the first that is not accepted |
| Delivery.SendStreamed | internal/httpapi/telegram.go:651-751 | the streamed delivery: what its waiting loop passes over, which signal decides, then the gate and the last call, with late answers of other uploads in between |
| Delivery.AlbumBatches | internal/httpapi/telegram_client.go:268-282 | batches hold the items in order, at most ten and at least two each when there are two, and are as many as `send` reports |
| Delivery.OperationTerminal | internal/httpapi/operation.go:59-103 | the step-by-step record ends as the declarative verdict, progress and result say |
| DeliverySafety.SafeAlbumDeliveredNothing | internal/httpapi/telegram.go:554-607 | if the verdict on an album says a retry is safe, Telegram delivered nothing, in every run |
| DeliverySafety.AlbumIsSafeExactlyWhen | internal/httpapi/operation.go:74-94 | it says so if and only if the first batch never passed its gate or was definitely refused |
| DeliverySafety.EarlierBatchesWereAccepted | internal/httpapi/telegram.go:593-605 | every batch of an album but the last one attempted was sent, accepted and counted; it stops early only at one that was not |
| DeliverySafety.StoppedLaterIsPartial | internal/httpapi/delivery_event.go:50-54 | an album that stops at a refusal or an error at any batch after the first is partial and never safe to retry |
| DeliverySafety.AlbumEndsExactly | internal/httpapi/delivery_event.go:37-55 | how an album ends, from what became of its calls: well if and only if every batch was accepted and the answers could be reported, in part if and only if not so but the first was, else refused or failed |
| DeliverySafety.AlbumProgressIsTrue | internal/httpapi/operation.go:74-94 | what the verdict says became of an album is exactly what became of its first batch and of all of them |
| DeliverySafety.StreamEndsExactly | internal/httpapi/telegram.go:705-750 | a streamed delivery ends by its last call alone |
| DeliverySafety.StreamAttemptsOnce | internal/httpapi/telegram.go:705-750 | which endings of a streamed delivery count as an attempt at the upload |
| DeliverySafety.WaitingHearsAll | internal/httpapi/telegram.go:711-729 | the first signal that decides does, and every announced buffer and every lost answer before it is heard |
| DeliverySafety.AnswersComeInOrder | internal/httpapi/telegram.go:711-729 | the answers in their order |
| DeliverySafety.ReleasedExactlyWhen | internal/httpapi/telegram.go:730-750 | the waiting upload is released exactly when its media were announced and became whole; converted media are uploaded anew |
| DeliverySafety.FailuresAreNamed | internal/httpapi/delivery_event.go:37-49 | the codes by which a failed delivery is known |
| DeliverySafety.CallMarksExactly | internal/httpapi/telegram_client.go:69-159 | what one call leaves known: confirmed, possible, rejected and started each exactly when |
| DeliverySafety.RepliesAreRead | internal/httpapi/telegram_client.go:120-159 | which replies accept and which refuse, at their borders |
| DeliverySafety.StreamIsSoundExactlyWhen | internal/httpapi/telegram.go:647-751 | the verdict on a streamed delivery can be trusted, whatever its last step does, if and only if no replaced upload is refused after that step began, or some upload was accepted, or the operation had ended |
| DeliverySafety.SafeStreamDeliveredNothing | internal/httpapi/telegram.go:647-751 | so it can with each replaced upload finished before the next |
| DeliverySafety.OverlappingUploadsCanMislead | internal/httpapi/telegram.go:731-750 | a run in which the answer to a replaced upload makes a wrong verdict |
| DeliverySafety.RetriesAreBounded | internal/core/operation.go:56-137 | at most three attempts; no retry once a message may exist; nothing after the verdict |
| DeliverySafety.RetriesAreGranted | internal/core/operation.go:56-74 | as many retries as the limit leaves are granted while nothing was committed or ended |
| DeliverySafety.RetryIsGrantedExactlyWhen | internal/core/operation.go:56-74 | a retry is granted exactly when nothing prevents it, and used up only then |
| AccountHealth.Store.MarkHealth | internal/instagramapp/store.go:273-292 | a report is kept whatever the flush does |
| AccountHealth.Store.Flush | internal/instagramapp/store.go:297-330 | any failure keeps what was known of every account; nil means nothing is pending, and comes when the statements succeed |
| AccountHealth.HealthIsKept | internal/instagramapp/store.go:273-330 | after any reports and writes, the later of stored and pending deadline is the latest reported, and an account counts as dead exactly if it did or was reported |
| AccountHealth.CleanIsStored | internal/instagramapp/store.go:297-300 | when not dirty, the database alone holds all of that |
| Admission.StepKeepsInv | internal/instagramapp/client.go:60-112 | what memory knows of an account is what the store knows, or a report on its way to it, through every response, write and return |
| Admission.AdmissionWaitsForHealth | internal/instagramapp/pool.go:259-261 | in every run a request is admitted to a freely chosen account only once every death and deadline reported before is in the database |
| Admission.AdmittedIsStored | internal/instagramapp/pool.go:259-261 | and then the database alone says of every account exactly what memory says |
| Admission.AdmissionComesBack | internal/instagramapp/store.go:294-330 | from every state there is a run to admission if statements succeed again and every account has its row |
| Revival.StepKeepsInv | internal/instagramapp/update.go:46-155 | every step of requests, renewals, updates and flushes keeps the invariant |
| Revival.OnlyTheCurrentSessionCondemns | internal/instagramapp/client.go:49-115 | a failure of a replaced session never disables the account; a pending death is of the current session |
| Revival.LateDeathIsIgnored | internal/instagramapp/client.go:60-76 | a death applies exactly to the session in memory |
| Revival.DeathIsNotForgotten | internal/instagramapp/client.go:60-112 | in every run, with nothing waiting to be written, an account disabled in memory is stored as dead of the session it was seen on, or the database holds another session |
| Revival.RenewalReplaces | internal/instagramapp/recovery.go:79-95 | an expired session can be renewed within a request, which goes on with a new, stored one |
| Revival.StoredContextIsOfStoredSession | internal/instagramapp/store.go:225-262 | whatever responses of whatever sessions filled the context in memory, and however snapshots, replacements and row-locked saves interleave, the stored context was made by responses to the stored session only |
| Revival.ContextIsStoredExactlyWhen | internal/instagramapp/store.go:225-262 | a snapshot is stored exactly when the stored session is still its own, and is all that responses filled the jar with |
| Revival.ResponsesFillTheirJar | internal/instagramapp/client.go:148-240 | a response enters the jar its request was sent with, and no other |
| Revival.NothingPendingAcrossReplacement | internal/instagramapp/update.go:21-57 | when a session is replaced no older death is still to be recorded or written |
| Revival.StoredDeathIsExact | internal/instagramapp/recovery.go:79-95 | in every run, ambiguous session writes included, a stored death was seen on the session in memory, so it is of the stored session if and only if the two agree |
| Revival.StoredDeathIsOfStoredSession | internal/instagramapp/recovery.go:79-95 | and they agree while every session write that reported an error failed |
| Revival.RevivedStaysUntilNewFailure | internal/instagramapp/update.go:128-139 | after a revival, in every longer run, only a failure of the new session or a later one condemns the account |
| Revival.UpdateRevives | internal/instagramapp/update.go:46-155 | a verified update revives an account, dead or not, on a new session that is stored alive |
| Revival.AmbiguousReplacementCanBeCondemned | internal/instagramapp/update.go:157-180 | a run in which an ambiguous replacement is condemned by the old session |
| Scheduler.ActiveWindow | internal/instagramapp/pool.go:280-294 | the shortest stretch of oldest accounts with the wanted number alive, or all, and no other stretch is |
| Scheduler.ScanCoversOnce | internal/instagramapp/pool.go:298-299 | the rotated scan meets every index of the window exactly once |
| Scheduler.Select | internal/instagramapp/pool.go:280-322 | the choice has the least (busy, mediaBusy) among usable accounts, first in rotation, untried; none only if there is none |
| Scheduler.ChosenIsFit | internal/instagramapp/pool.go:296-322 | the chosen account is alive, does not rest, is not being updated, was not tried and has room, and no other such account has less load |
| Scheduler.LoadsAreLeases | internal/instagramapp/pool.go:324-329 | an account's loads are exactly its outstanding leases and never exceed its limits |
| Attempts.Detail | internal/instagramapp/client.go:38-144 | one request's attempts: at most the permitted number, each on the scheduler's choice among accounts not used before, none used twice, going on only after failures that allow it, and ending for the right reason |
| Attempts.NoneIsUsedTwice | internal/instagramapp/client.go:38-48 | no account is used twice, whatever becomes of the accounts between attempts |
| Protobuf.AppendUvarint | internal/tiktokapp/protobuf.go:23-27 | the loop appends the value's base-128 form |
| Protobuf.Uvarint | internal/tiktokapp/protobuf.go:36-48 | the loop reads it, with its errors |
| Protobuf.EncodeProto | internal/tiktokapp/protobuf.go:20-32 | the loop encodes the fields in order |
| Protobuf.DecodeProto | internal/tiktokapp/protobuf.go:33-66 | the loop decodes what the recursive grammar accepts, and ends |
| Protobuf.VarintReadsBack | internal/tiktokapp/protobuf.go:23-45 | every 64-bit value is read back with exactly its own bytes, whatever follows |
| Protobuf.VarintsAreShortest | internal/tiktokapp/protobuf.go:23-27 | every varint is the shortest of its value |
| Protobuf.VarintsFit | internal/tiktokapp/protobuf.go:36-48 | whatever is read fits 64 bits and ten bytes; which inputs are short |
| Protobuf.DecodedIsSound | internal/tiktokapp/protobuf.go:33-66 | every decoded field has a permitted number and a 64-bit value |
| Protobuf.MissingExactlyWhen | internal/tiktokapp/protobuf.go:67-74 | a byte field is missing exactly when no field of the number holds bytes |
| Protobuf.DocumentedNumber | internal/tiktokapp/protobuf.go:20-32 | the format documentation's example of a number field |
| Protobuf.DocumentedString | internal/tiktokapp/protobuf.go:20-32 | and of a string field |
| Protobuf.DecodeUndoesEncode | internal/tiktokapp/protobuf.go:20-66 | decoding gives back the encoded fields if and only if every number is in 1 … 2^29-1 |
| Protobuf.FieldsTakeBytes | internal/tiktokapp/protobuf.go:35-64 | every decoded field took at least two bytes |
| Protobuf.NestedReadsBack | internal/tiktokapp/protobuf.go:67-74 | a message inside a byte field is found and read back through both layers |
| Xtea.XteaBlock | internal/tiktokapp/crypto.go:112-137 | the loop computes the block function in either direction |
| Xtea.RoundsAreUndone | internal/tiktokapp/crypto.go:112-137 | decryption undoes encryption for every mixing function, block and number of rounds |
| Xtea.KeyedRoundsAreUndone | internal/tiktokapp/crypto.go:112-137 | in particular under the program's mixing with every key |
| Xtea.DeltaIsGolden | internal/tiktokapp/crypto.go:115-115 | the step of the sum is the one number that is the golden ratio's fraction in 32 bits |
| Xtea.MixingIsKnown | internal/tiktokapp/crypto.go:119-121 | known answers of the mixing |
| Xtea.KeyWordsAreChosen | internal/tiktokapp/crypto.go:122-132 | which bits of the sum choose the key words |
| XteaCbc.XteaCBC | internal/tiktokapp/crypto.go:138-163 | the loop chains the blocks in either direction; wrong lengths of input, key or vector are errors |
| XteaCbc.CbcIsUndone | internal/tiktokapp/crypto.go:138-163 | chaining is undone over any number of blocks |
| XteaCbc.KeyedCbcIsUndone | internal/tiktokapp/crypto.go:138-163 | in particular under every 16-byte key |
| XteaCbc.EachBlockIsChained | internal/tiktokapp/crypto.go:138-163 | each block on its own, as section 6.2 of NIST SP 800-38A defines it |
| XteaCbc.XorIsBitwise | internal/tiktokapp/crypto.go:146-156 | exclusive or, bit by bit |
| XteaCbc.RoundsAreKnown | internal/tiktokapp/crypto.go:143-143 | between 32 and 64 rounds, by the initial block's first word |
| XteaCbc.NetworkOrder | internal/tiktokapp/crypto.go:112-137 | words and blocks are in network order |
| SdkPayload.InnerUnpacks | internal/tiktokapp/crypto.go:168-183 | header offset, length and deflated body agree on both sides |
| SdkPayload.EnvelopeOpens | internal/tiktokapp/crypto.go:205-212 | the envelope's checks accept what was wrapped, and its parts are found |
| SdkPayload.DecryptUndoesEncrypt | internal/tiktokapp/crypto.go:164-237 | decryption gives back the payload if its deflated form is at most the limit less 21 bytes, and refuses it otherwise, for any ciphers that invert |
| SdkPayload.XteaChains | internal/tiktokapp/crypto.go:138-163 | the chained XTEA does, under every key |
| SdkPayload.SdkPayloadReadsBack | internal/tiktokapp/crypto.go:164-237 | so with the program's own chained cipher and key the payload comes back if and only if its deflated form leaves room |
| SdkPayload.IncompressibleIsRefused | internal/tiktokapp/crypto.go:164-196 | a payload of the permitted size that does not shrink is encrypted and then refused |
| SdkPayload.InnerLayout | internal/tiktokapp/crypto.go:164-183 | header, length, deflated body and zeros, byte by byte |
| SdkPayload.EnvelopeLayout | internal/tiktokapp/crypto.go:187-191 | marker, chained block and nonce in clear, then padding that ends with its own length |
| SdkPayload.ThreeFlipsTwoBits | internal/tiktokapp/crypto.go:187-187 | the marker differs from the byte it marks in the two low bits |
| SdkPayload.AcceptedIsSealed | internal/tiktokapp/crypto.go:193-204 | whatever is decrypted had whole blocks within the limit and well-formed padding |
| SdkPayload.AcceptedIsMarked | internal/tiktokapp/crypto.go:205-237 | and an envelope of the right length and marker whose header states the length that was inflated |
| Mp4.ReadBoxes | internal/platform/mp4.go:15-50 | the loop returns the tiling of the range, or an error exactly when there is none or it is too long |
| Mp4.BoxesTile | internal/platform/mp4.go:15-50 | each box begins where the one before ended, from the first byte of the range to the last |
| Mp4Search.FindMovie | internal/platform/mp4_read.go:10-58 | the two nested loops refine one walk over the whole file: what they find is what the walk finds, and they find a movie if and only if it begins before the boxes of the last window end, which the sizes of the boxes alone decide; a missed one begins at thirty-two strides or later |
| Mp4Search.SearchIsWalk | internal/platform/mp4_read.go:10-58 | the same of the search as a function, by following the walk from window to window |
| Mp4Search.ScanWindow | internal/platform/mp4_read.go:18-52 | the inner loop: what one window finds, or where the next box begins |
| Mp4Search.SomeMovieIsMissed | internal/platform/mp4_read.go:12-56 | a file whose movie the walk finds and the search misses |
| Mp4.WalkFindsFirstMoov | internal/platform/mp4_read.go:15-50 | on every file tiled by boxes the walk finds a movie at `m` if and only if the first box called `moov` lies there, states its size and is not too long |
| Mp4.OpenEndedMovieIsRefused | internal/platform/mp4_read.go:25-40 | a first `moov` that leaves its size open is refused, wherever it lies |
| Mp4.EmptyOpenMovie | internal/platform/mp4_read.go:25-40 | an input for that: the eight bytes of an empty movie box |
| Mp4Movie.MovieDimensions | internal/platform/mp4.go:62-146 | the loops over the boxes of every layer give the first answer on the path, reading no byte outside the movie |
| Mp4Movie.DimensionsAreOnPath | internal/platform/mp4.go:68-143 | the dimensions are those of a sample description at the end of the whole path, in a video track |
| Mp4Movie.AbsentMeansNoPath | internal/platform/mp4.go:62-146 | if no dimensions are found and no list is broken, there is no path to a usable sample description in any track that says video |
| Mp4Movie.FirstIsFirst | internal/platform/mp4.go:68-143 | the answer is that of the first box that has one |
| Mp4Movie.LastMinfIsLast | internal/platform/mp4.go:87-98 | of several `minf` the last is used |
| Mp4Movie.BrokenMeansUntiled | internal/platform/mp4.go:62-146 | a search ends broken exactly where a list does not tile its range or is too long |
| Mp4Movie.NetworkOrder | internal/platform/mp4.go:15-50 | numbers are in network order, also the sixteen-byte header |

## Left out

- Identity pool: the SQL text, schema migration, slot conflicts and `permanent` errors; session decoding and validation at start-up.
- Identity pool: `connect`, `retake`, `sync`, `persist` and `saveBeforeClose` are events of the protocol, not methods; their timers and backoff only choose when events happen, and every time is allowed. `retake`'s two tries are one step that may end an old backend or give up.
- Identity pool: the set of proxies is fixed; a changed proxy list is read at start-up only. `ProxyHealth` does not say when a health changes, which any lease may do.
- Identity pool: ownership tokens are numbered in the order they are drawn; that random tokens never repeat is assumed.
- OwnershipSafety.FlushIsSound: states what a nil result means; that `flush` returns at all is not modelled.
- Leases.Pool.TakeAny: an unavailable pool and a session that cannot be made are the event `TurnedAway` of `LeaseSafety`. Failure counts and cooldown lengths of `failedLocked`, and session recreation in `recover`, are not modelled.
- Media buffers: waiting readers are not woken in the model, they simply read later; a chunk written by `memoryReader.WriteTo` is a pin and an unpin around a read; buffers over given bytes (`Bytes`) are left out.
- SpoolBuffer.Buffer.BeginWrite: the copy between the two locked sections is the event `CopyByte` of `SpoolRuns`, one byte at a time, so that it interleaves with everything else.
- RangedDownload.ChosenAims: assumes that a body holds bytes of one version at the range it states and that a strong ETag identifies the version at one address, as section 8.8.1 of RFC 9110 says.
- Ranged downloads: `downloadOnce` and `rangeJob` are events on shared state, because what matters is how they interleave; the arithmetic and parsing they use are functions in `Ranges`. Media type detection, hashing, alternation of sources, retry delays and the number of attempts are left out: a part may be retried any number of times, and a limit met while a body is read only ends the download.
- The cache's lock, and `Limiter` and `CacheBudget`, which are short. Entries are named by their key. `time.Now` is a parameter.
- Delivery.Call: how a reply is parsed from JSON; a reply is given by its status, its `ok` and its `error_code`.
- Telegram delivery: preparation of media, multipart bodies, and fields of requests. Of the delivery event, the status and code of the last reply.
- Delivery.SendStreamed: signals are taken one at a time in any order; that goroutines end and buffers are cleaned up afterwards is not modelled.
- Instagram session changes: in `Revival`, `Detail`, `renew` and `updateExisting` are events, because what matters is how they interleave; the loop of `Detail` is in `Attempts`. There is one account; cooldowns, which no session change touches, are in `AccountHealth`. A new login is assumed to return an authorization not used before.
- AccountHealth.Store.Flush: the order in which a map is visited is arbitrary, and every order is covered; `ReplaceSession`, which clears a death, is in `Revival`.
- Instagram scheduling: waiting for a change and the queue limit, which work as in `Leases`. In `Attempts` the pass that decides about an attempt is given, and `ended` stands for the context's end.
- Protobuf.DecodeUndoesEncode: wire types other than 0 and 2 are never encoded by the program and are refused by the decoder.
- SdkPayload.SdkPayloadReadsBack: AES-CBC and zlib are parameters with their inverse laws; random bytes are parameters.
- MP4: read errors of the underlying file; boxes are found in a file given as bytes.
- Hashes, Simon, Ladon, Argus, login encryption, image decoding and scaling, cookie jars, request parsing and configuration: no inverse or checkable law in the code, or plumbing over libraries.
