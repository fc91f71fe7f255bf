# Buckit: batch expiry, healing, and a few small cores

A Dafny model of the stateful cores of the Buckit object store, with proofs of what they keep.

* **Batch expiry** (`ExpireWalk`, `ExpireStamps`, `ExpireLoops`, `Retention`, `ExpireDelete`, `RetryLaws`,
  `ExpireWorker`, `ExpireJob`, `ExpireCompletion`). The one-pass loop that turns a stream of versions into batches of
  deletions is a class proved against a relation between loop states, and refines a specification that looks at each
  object on its own. The delete workers reuse one array over their retries; every call of the object layer may fail in
  any way. `ExpireJob` puts a job together: for every interleaving of its workers the shared counters are the sums over
  the workers, and the calls that succeeded delete no version that is to be kept, and all others if nothing fails.
  `ExpireCompletion` says when the completion flag tells the truth.
* **Heal sequences** (`HealRegistry`, `HealState`, `HealResults`, `HealTasks`, `HealSequences`). Each critical section
  is one atomic step; invariants hold after every interleaving. The classes beside the state machines are the
  operations as the program has them, with the steps of other goroutines in between where it releases a lock.
* **The healing tracker** (`BucketQueue`, `HealingTracker`, `TrackerRuns`), **passes over a drive** (`HealReports`,
  `HealPass`, `DriveHeal`), where reports reach the tracker through a channel, and **the tracker's codec** (`MsgPack`,
  `MsgPackObjects`, `TrackerFields`, `TrackerCodec`, `TrackerPrinter`). The struct is one record in an object; the
  deletion loop that ranges over a slice while shifting it runs on the backing array. Saved trackers are bytes, and a
  reload after a crash parses them. The runtime of the generated codec (package tinylib/msgp) is not part of this model:
  its primitives follow the MessagePack specification, section "Formats". `MsgPackObjects` has the objects of that
  section in all their formats: every one is skipped whole, every format of a family is read, and the smallest is
  written; times are extension type 5, of 12 bytes.
* **The worker pool** (`WorkerPool`), **S3 URL encoding** (`S3Encode`) and **grouping of lock records** (`TopLocks`).

Choices of the environment are parameters or free choices of the model: which select branch is taken, what a call of the
object layer answers, when a context is cancelled, in which order a map is iterated, what the clock shows.

Where the code and its own comments disagree the model follows the code: a batch of expired versions goes out when it
holds more than 10 entries, that is with 11, and a drive is healed again up to four times, not three.

Properties that the code does not have are stated with a concrete run and with the exact condition under which it has
them: reports of failed items that a later `resume` forgets, errors of a pass that are not returned, counters of the
background sequence that its tasks do not explain, live sequences that a stop request unregisters, failed bytes after
retries, delete-marker counts that a later push resets, jobs that are complete although a delete marker is left, drives
that are finished although an item failed, skipped items after a reset, duplicate names in the bucket queue. Four more
runs start from inputs that the repository does not show to occur: whether marshalling a heal status can fail is not
part of this model; the pool of workers is only ever resized to 100 (cmd/server-main.go:1132), never to a negative
number; the two objects that share a cache key have version identifiers that no version has; and the lock requests that
share a key have identifiers with a slash, while the server makes UUIDs (cmd/namespace-lock.go:233).

## Model

| member | source | states |
|---|---|---|
| S3Encode.S3URLEncode | cmd/api-utils.go:44-98 | on each of its three paths the encoder returns the bytewise concatenation of the images of the bytes; every write is inside the pre-sized buffer |
| S3Encode.EncodeSpaces | cmd/api-utils.go:71-79 | the path for strings whose only bytes to escape are spaces gives the same encoding |
| S3Encode.EncodeGeneral | cmd/api-utils.go:81-97 | the general path leaves the encoding in the first `len(s) + 2*hexCount` bytes of the buffer, all of which it writes |
| S3Encode.EncodedLength | cmd/api-utils.go:64 | the size computed beforehand is the exact length of the encoding |
| S3Encode.EncodeByteExactly | cmd/api-utils.go:28-42 | a byte stays as it is if and only if it is a letter, a digit or one of the unescaped marks; a space becomes "+", any other "%" and its two upper-case hexadecimal digits |
| S3Encode.DecodeUndoesEncode | cmd/api-utils.go:44-98 | round trip: reading "+" as a space and "%HH" as a byte (section 2.1 of RFC 3986) restores every string |
| S3Encode.EncodeInjective | cmd/api-utils.go:44-98 | no two strings have the same encoding |
| S3Encode.EncodeIsCanonical | cmd/api-utils.go:28-42 | an encoding consists of unescaped bytes, "+", and "%HH" with upper-case digits for bytes that need it |
| S3Encode.CanonicalIsTheImage | cmd/api-utils.go:28-98 | exactly these texts are encodings: a text has the form if and only if it decodes and encodes back to itself |
| ExpireWalk.Contiguous | cmd/batch-expire.go:656-730 | the assumption on the walk, as a property: two versions of a name have only versions of that name between them |
| ExpireLoops.ExpireLoop.PushToExpire | cmd/batch-expire.go:632-655 | a push stamps the delete markers counted for a last whole-object entry, and sends the pending list, unless cancelled, once it is longer than 10 |
| ExpireLoops.ExpireLoop.FindRule | cmd/batch-expire.go:675-687 | no rule is found if and only if none matches; the rule found is one that matches, and none before it does |
| ExpireWalk.FirstMatchDecides | cmd/batch-expire.go:675-687 | the rule by which the specification decides is the first that matches, and there is none if and only if none matches |
| ExpireWalk.HasErrorExactly | cmd/batch-expire.go:663-667 | the walk reported an error if and only if one stands in its stream |
| ExpireWalk.MarkersAreCounted | cmd/batch-expire.go:668-670 | the delete markers counted for an object are as many as there are versions of its name among those seen that are delete markers |
| ExpireLoops.ExpireLoop.Receive | cmd/batch-expire.go:669-723 | one version of the stream: what it appends, pushes and remembers, for a latest version, an older one of the same object and an older one without a latest version |
| ExpireLoops.ExpireLoop.CloseBatches | cmd/batch-expire.go:736-744 | the closing push and send leave nothing of the specification unsent unless cancelled; all batches but the last have 11 entries and none has more |
| ExpireLoops.ExpireLoop.Consume | cmd/batch-expire.go:656-731 | at the end of the loop the state is one that a sequence of turns over a prefix of the stream reaches, and over all of it unless cancelled; a walk error is noted and nothing else |
| ExpireLoops.ExpireLoop.Start | cmd/batch-expire.go:623-751 | for every well-formed stream: whatever the cancellation, what was sent is a prefix of what the per-object specification asks for; uncancelled it is all of that, in stream order, in batches of 11 (the last at most 11), and its own failure flag is set if and only if the walk reported an error; it ends cancelled only if the context is cancelled at some time; the delete-marker count of a whole object is the true one or 0, and which of them as in `ExpireStamps` |
| ExpireStamps.StampsExactly | cmd/batch-expire.go:632-655 | a whole object is sent with the true number of its delete markers if and only if one push only met its entry as the last pending one, or the number is 0; later pushes stamp 0, because the first one cleared the count |
| ExpireStamps.StampLost | cmd/batch-expire.go:632-655 | a run over two objects in which a second push resets the count of the first object to 0 |
| ExpireWalk.ReachedKeeps | cmd/batch-expire.go:656-730 | every state reached after k versions, however the context and the workers behaved, satisfies the loop invariant: sent plus pending is what the specification asks of the k versions |
| ExpireWalk.ReachedProduces | cmd/batch-expire.go:656-744 | what was sent by then is a prefix of the specification, and with the closing push it is all of it |
| ExpireWalk.MarkersComplete | cmd/batch-expire.go:632-642 | once the walk has left an object its delete-marker count does not change any more |
| Retention.ListingWellFormed | cmd/batch-expire.go:656-730 | the listing of a bucket, object by object and newest version first, is a stream of the kind the loop is proved for |
| Retention.Keeps | cmd/batch-expire.go:674-723 | the number of versions an object keeps is never more than it has; which number, is in `KeepsPlain` |
| Retention.DecisionIsFirst | cmd/batch-expire.go:674-687 | the rule that decides on an object is the first that matches its latest version; none decides if and only if it has no latest version or no rule matches that one |
| Retention.KeepsPlain | cmd/batch-expire.go:674-723 | the number kept, by the position of the first matching rule: its retain, cut off at 0 and at the number of versions; without a matching rule or a latest version all |
| Retention.DemandPlain | cmd/batch-expire.go:688-723 | what an object asks for, by the position of the first matching rule: one entry for the whole object if it retains 0, otherwise one entry for each version beyond the ones kept, newest first |
| Retention.WalkMeetsDemands | cmd/batch-expire.go:656-744 | refinement: the one-pass specification over the stream asks for exactly what each object asks for on its own, object after object |
| Retention.SentHitsExactly | cmd/batch-expire.go:656-744 | the entries that the walk of a bucket sends hit a version if and only if it is beyond the ones its object keeps |
| Retention.RetentionExact | cmd/batch-expire.go:656-744 | the entries sent leave every object exactly the versions that it keeps, a prefix of its versions, newest first |
| Retention.RetentionPlain | cmd/batch-expire.go:656-744 | the same by the position of the first matching rule: retain r > 0 leaves exactly the min(r, n) newest versions, retain 0 none, no matching rule or no latest version all; that the calls which succeed delete just this is `ExpireJob.JobRetention` |
| Retention.RetainedIsSafe | cmd/batch-expire.go:674-723 | no part of the entries that the walk of a bucket sends hits a version that its object is to keep |
| ExpireDelete.Expire | cmd/batch-expire.go:349-372 | chunked deletion ends, asks for at most 1000 objects at a time, and answers one error per object in the order asked |
| ExpireDelete.CacheKeyInjective | cmd/batch-expire.go:390-397 | cache keys tell any two objects apart whose version identifiers have one of the forms there are, in any mixture: none, "null", or a UUID, the last character of which is a hexadecimal digit |
| ExpireDelete.CacheKeyCollides | cmd/batch-expire.go:390-397 | the forms matter: with identifiers that no version has, two different objects share a key |
| ExpireDelete.BatchJobInfo.CountItem | cmd/batch-handlers.go:903-935 | each of the seven counters by name, for every combination of delete marker, success and attempt |
| ExpireDelete.BatchJobInfo.Finish | cmd/batch-expire.go:749-750 | the job is complete if and only if the walk reported no error and no object is counted as failed, and failed otherwise |
| ExpireDelete.BatchJobInfo.TrackCurrentBucketObject | cmd/batch-handlers.go:1017-1030 | one counted item; the current bucket and object move on success only |
| ExpireDelete.BatchJobInfo.TrackMultipleObjectVersions | cmd/batch-handlers.go:998-1015 | a whole object counts with all its versions: Objects or ObjectsFailed grows by those that are not counted as delete markers, DeleteMarkers or DeleteMarkersFailed by those that are; nothing else moves |
| ExpireDelete.ReadErrors | cmd/batch-expire.go:490-511 | reading the errors: the error at index i is counted for the copy at index i, and the front of the reused array becomes exactly the failed objects, in order |
| ExpireDelete.Attempt | cmd/batch-expire.go:484-511 | one attempt asks for exactly the objects at the front of the reused array, counts every answer once, and leaves the failed ones there |
| ExpireDelete.DeleteVersions | cmd/batch-expire.go:475-523 | the retry loop, which only a cancelled context cuts short: every attempt asks for what the one before left; it ends when nothing is left or the attempts are used up, and the log of the object layer and the counters are explained by its record |
| RetryLaws.NothingLost | cmd/batch-expire.go:475-523 | every object is deleted in exactly one attempt or left at the end, for every weight of objects |
| RetryLaws.TraceSums | cmd/batch-handlers.go:903-935 | for every pattern of failures: the counters of deleted items and bytes grow by what was deleted, the failed ones by what is left, and the failed bytes by twice what retries deleted on top of that |
| RetryLaws.AttemptsCounted | cmd/batch-handlers.go:903-935 | the attempts grow by one for every answer about a version that is in the cache |
| RetryLaws.RetriesConserve | cmd/batch-handlers.go:903-935 | Objects + DeleteMarkers grows by the number deleted, ObjectsFailed + DeleteMarkersFailed by the number left, together by the number asked for; no failed counter drops below its starting value |
| RetryLaws.BytesFailedExactly | cmd/batch-handlers.go:903-935 | BytesFailed is the size of what is left if and only if no retry deleted anything of size |
| RetryLaws.BytesFailedDrifts | cmd/batch-handlers.go:920 | a version of 5 bytes deleted by its second attempt leaves BytesFailed at 10 with nothing left to delete |
| RetryLaws.RetriesWhatFailed | cmd/batch-expire.go:485-511 | attempt k is about exactly the objects that failed in attempts 1 to k-1, in their original order |
| ExpireWorker.DeleteWhole | cmd/batch-expire.go:448-473 | a whole object is asked for until a call succeeds, at most the number of retries, and counted once |
| ExpireWorker.Split | cmd/batch-expire.go:427-446 | a batch is split into whole objects and single versions in order, with the info of each single version cached |
| ExpireWorker.SplitConcat | cmd/batch-expire.go:427-446 | splitting goes entry by entry |
| ExpireWorker.Work | cmd/batch-expire.go:399-526 | one worker: the record of its calls explains the log of the object layer and the counters completely; uncancelled, every whole object and every version had its attempts |
| ExpireWorker.CacheIsExact | cmd/batch-expire.go:429-446 | with distinct keys each single version finds its own info in the cache |
| ExpireWorker.BatchConserves | cmd/batch-expire.go:427-523 | conservation for a batch: every version it stands for is counted once, as deleted or as failed, whatever fails and whatever the delete-marker counts say |
| ExpireJob.InterleavingsAddUp | cmd/batch-handlers.go:903-1015 | whatever the interleaving of workers that share the counters, single versions and whole objects alike: in the end the counters are where they started plus what each worker adds on its own |
| ExpireJob.OpsAreWork | cmd/batch-expire.go:427-523 | the counting operations of a worker, one after the other, are what a worker on its own does to the counters |
| ExpireJob.JobConserves | cmd/batch-expire.go:399-526 | conservation for a whole uncancelled job, whatever the interleaving and whatever fails: the counters grow by exactly what all workers deleted and by exactly what they left, together by the number of versions in all batches |
| ExpireJob.LogDeletes | cmd/batch-expire.go:448-523 | a version is deleted by a job if and only if a call that succeeded in the object layer's log names it or its whole object |
| ExpireJob.JobIsSafe | cmd/batch-expire.go:399-744 | safety end to end, for cancelled jobs and any failures: no call that succeeded deletes a version that its object is to keep |
| ExpireJob.JobRetention | cmd/batch-expire.go:399-744 | if nothing failed, the calls that succeeded delete exactly the versions beyond the ones that each object keeps |
| ExpireJob.CountersTellTheTruth | cmd/batch-expire.go:399-751 | for any interleaving: the failed counters of an uncancelled job do not move if and only if nothing failed, and then the log deletes exactly the versions beyond the ones kept |
| ExpireJob.RunWorker | cmd/batch-expire.go:399-526 | one worker and one batch: what it adds to the counters and to the log is explained by a record of its calls |
| ExpireJob.RunJob | cmd/batch-expire.go:623-751 | a whole job with its workers one after the other: their batches are a prefix of what the specification asks for, all of it unless cancelled; the counters grow by the sum of what the workers add, the log by their calls; it ends cancelled only if the context is cancelled at some time, and otherwise it is complete if and only if the walk reported no error and no object is counted as failed |
| ExpireCompletion.JobObjectsFailed | cmd/batch-handlers.go:903-1015 | for any interleaving and any failures: ObjectsFailed grows by the versions of the failed whole objects less their delete-marker counts, and the single versions left that are no delete markers |
| ExpireCompletion.JobCounters | cmd/batch-handlers.go:903-1015 | for any interleaving and any failures, all seven counters in closed form: Objects grows by the versions of the deleted whole objects less their delete-marker counts and by the deleted single versions that are no delete markers, DeleteMarkers by those marker counts and by the deleted single markers, and likewise what failed, the bytes and the attempts |
| ExpireCompletion.WeightsAreOwn | cmd/batch-expire.go:429-446 | with distinct keys, what decides how a single version is counted is its own kind and size |
| ExpireCompletion.WholeObjectCounts | cmd/batch-handlers.go:998-1015 | an object of three versions, one of them a delete marker, deleted at the first call counts as 2 objects and 1 delete marker |
| ExpireCompletion.CompletionTellsExactly | cmd/batch-expire.go:749 | an unmoved ObjectsFailed means that nothing failed, for every pattern of answers and every interleaving, if and only if no single version sent is a delete marker and no whole object sent has as many delete markers as versions |
| ExpireCompletion.CompleteMeansDeleted | cmd/batch-expire.go:399-751 | then a job with an unmoved ObjectsFailed deleted exactly the versions beyond the ones that each object keeps |
| ExpireCompletion.CompleteIgnoresMarkers | cmd/batch-expire.go:749 | otherwise not: a delete marker, alone or as a whole object, can be left by a job that calls itself complete |
| ExpireCompletion.KeysAreDistinct | cmd/batch-expire.go:390-446 | the cache keys of a batch are distinct, as these results assume, if no version is sent twice on its own |
| HealRegistry.StepKeeps | cmd/admin-heal-ops.go:204-331 | every critical section of launch, run, end, stop and periodic clean keeps the registry invariant, also while a launcher is half-way through the entries |
| HealRegistry.RunKeeps | cmd/admin-heal-ops.go:204-331 | so after every interleaving no two registered sequences that have not ended have paths of which one is a prefix of the other |
| HealRegistry.NoPathHealedTwice | cmd/admin-heal-ops.go:319-331 | hence no object path is covered by two registered live sequences |
| HealRegistry.RelatedExactly | cmd/admin-heal-ops.go:319-324 | two paths are related if and only if some object lies under both |
| HealRegistry.RefusedExactly | cmd/admin-heal-ops.go:319-327 | a launcher is refused at an entry if and only if the sequence there is live and some object lies under both paths; otherwise it goes on to the other entries |
| HealRegistry.StopCancels | cmd/admin-heal-ops.go:253-273 | a stop request cancels the sequence that is registered under its path, and no other |
| HealRegistry.StepForward | cmd/admin-heal-ops.go:673-714 | a step moves a sequence at most one stage on, never back |
| HealRegistry.RunForward | cmd/admin-heal-ops.go:590-598 | over a whole run a sequence keeps its path, its stage never falls, and once ended its end time and status stay as they are |
| HealRegistry.RegisteredExactly | cmd/admin-heal-ops.go:274-280 | a step keeps every live sequence registered if and only if it is not a stop request that removes, by path, the entry of a sequence that has not ended; in particular launches replace and the cleaner removes ended ones only |
| HealRegistry.StopCanUnregisterALiveSequence | cmd/admin-heal-ops.go:253-285 | a run in which the second of two stop requests for a path removes a later sequence of that path: it is live, unregistered, and a third one is launched beside it |
| HealState.AllHealState.LaunchNewHealSequence | cmd/admin-heal-ops.go:316-331 | under the lock a sequence is registered only if every registered one with a related path has ended, although others end meanwhile; a refusal has a live related one as its reason |
| HealState.AllHealState.RemoveStopped | cmd/admin-heal-ops.go:277-280 | removing by path keeps every live sequence registered if and only if the one removed had ended; if it was live, nothing live is left that would keep a launch on the path from being accepted |
| HealState.AllHealState.StopHealSequence | cmd/admin-heal-ops.go:253-285 | a stop request signals the sequence that stood under its path and removes the path if and only if that sequence has ended in time; every other entry stays |
| HealState.AllHealState.CleanEnded | cmd/admin-heal-ops.go:210-222 | one round of the cleaner removes exactly the sequences that ended more than ten minutes ago, in whatever order the map is iterated |
| HealResults.RunKeeps | cmd/admin-heal-ops.go:613-664 | after every interleaving at most 1000 results are pending, they are the last accepted ones with consecutive numbers, and the first has the number after the last one sent |
| HealResults.GapFreeExactly | cmd/admin-heal-ops.go:378-404 | what clients received followed by what is pending is all accepted results numbered 1, 2, 3, ... without gap or repeat, if and only if no pop failed to marshal while items were pending |
| HealResults.FailedPopLoses | cmd/admin-heal-ops.go:392-400 | such a failed pop drops the items although the last sent number has moved on |
| HealResults.NumbersRevealLosses | cmd/admin-heal-ops.go:385-392 | a client can tell: the number on the last item received counts the dropped ones, too |
| HealSequences.HealSequence.PushHealResultItem | cmd/admin-heal-ops.go:613-664 | a push adds its result behind those of the meantime, or ends with the queue full at every try: when a stop is signalled, or after as many tries as a day has seconds |
| HealSequences.HealSequence.PopHealStatus | cmd/admin-heal-ops.go:374-405 | a pop with the right token hands over all pending items once; with a wrong one nothing changes |
| HealSequences.PopHealStatusJSON | cmd/admin-heal-ops.go:361-405 | a path without a sequence reports a finished heal |
| HealTasks.RunCounts | cmd/admin-heal-ops.go:554-576 | in every reachable state each counter of a type is the number of its tasks scanned, healed or failed, plus what drive healing and the heal workers count on the background sequence beside its awaited tasks |
| HealTasks.CountsExactly | cmd/global-heal.go:383 | it is the number of its tasks alone if and only if nothing was counted beside them |
| HealTasks.OwnTasksCountNothingElse | cmd/admin-heal-ops.go:716-797 | which is so for a sequence whose counters move through awaited tasks only, as every sequence but the background one |
| HealTasks.ScannedIsAccountedFor | cmd/admin-heal-ops.go:716-797 | after every interleaving and per type: a task that waits was counted as healed, or as failed, or is in flight, or was abandoned, and none twice; scanned counts these and the tasks nobody waits for; what is counted beside the tasks comes on top, counter by counter |
| HealTasks.PlainlyAccountedForExactly | cmd/global-heal.go:375-481 | without these terms the equation holds if and only if as much was scanned as was healed and failed beside the awaited tasks |
| HealTasks.DriveHealingScansTwice | cmd/global-heal.go:375-502 | it fails for one healed object of one version: drive healing counts it healed once and scanned twice, without a task |
| HealTasks.SettledWhenIdle | cmd/admin-heal-ops.go:716-797 | healed and failed add up to the awaited tasks, and what is counted beside them, if and only if none is in flight or abandoned |
| HealSequences.HealSequence.HealSequenceStart | cmd/admin-heal-ops.go:673-714 | a started sequence goes forward through its stages to an end that fits how its traversal ended, and that is the end the registry sees |
| HealSequences.HealSequence.WorkerSettles | cmd/background-heal-ops.go:136-150 | a heal worker counts the outcome of a task that nobody waits for on the background sequence |
| HealSequences.HealSequence.QueueHealTask | cmd/admin-heal-ops.go:716-797 | for each way the pool and the context can treat a task: it is counted as scanned once, it is one task more, which ends handed over or dropped if nobody waits for it and otherwise healed, failed or abandoned; exactly the counter for that outcome moves, and the caller is told accordingly |
| BucketQueue.DeleteInPlace | cmd/background-newdisks-heal-ops.go:302-307 | the deletion loop over the old slice header: it panics if and only if the last element is to be deleted and so was one before it; otherwise it leaves what a sweep leaves that does not look at the element moving up |
| BucketQueue.SweepExactly | cmd/background-newdisks-heal-ops.go:302-307 | that is everything but the bucket if and only if the bucket does not stand twice in a row |
| BucketQueue.DoneKeepsPending | cmd/background-newdisks-heal-ops.go:291-323 | for distinct names taking a bucket off the queue cannot panic, and the queue stays the listed buckets that are not healed, in the order of the list |
| BucketQueue.PendingElements | cmd/background-newdisks-heal-ops.go:312-323 | a bucket is pending if and only if it is listed and not healed |
| BucketQueue.PendingInOrder | cmd/background-newdisks-heal-ops.go:312-323 | the pending buckets stand in the order of the list |
| HealingTracker.HealingTracker.UpdateProgress | cmd/background-newdisks-heal-ops.go:207-222 | one report moves one pair of counters, modulo 2^64, and nothing else |
| HealingTracker.HealingTracker.Resume | cmd/background-newdisks-heal-ops.go:277-287 | the counters become those of the snapshot |
| HealingTracker.HealingTracker.ResetHealing | cmd/background-newdisks-heal-ops.go:152-170 | what is cleared, and that the skipped items of the snapshot are not |
| HealingTracker.HealingTracker.BucketDone | cmd/background-newdisks-heal-ops.go:291-308 | a snapshot is taken and the bucket moves from the queue to the healed ones, by the loop above; when it panics |
| HealingTracker.HealingTracker.SetQueuedBuckets | cmd/background-newdisks-heal-ops.go:312-323 | the queue becomes the listed buckets that are not healed, in order |
| HealingTracker.HealingTracker.Prepare | cmd/background-newdisks-heal-ops.go:237-249 | under the lock: the bytes to be written are the encoding of exactly what is in memory then |
| HealingTracker.HealingTracker.Save | cmd/background-newdisks-heal-ops.go:237-257 | with nobody in between, the file holds the encoding of exactly what is in memory afterwards, or is unchanged if the drive refuses the write; `TrackerRuns` has the writes of others in between |
| HealingTracker.HealingTracker.Update | cmd/background-newdisks-heal-ops.go:226-234 | the same after filling in a missing identity or location |
| HealingTracker.LoadHealingTracker | cmd/background-newdisks-heal-ops.go:105-130 | a load fails exactly without a drive, on a drive that does not tell its identity, and for a missing, undecodable or foreign file; otherwise it gives the decoded tracker with the identity of the drive |
| HealingTracker.LoadRestoresSaved | cmd/background-newdisks-heal-ops.go:105-133 | what was saved is what a later load gives, all 29 fields |
| TrackerRuns.RunKeeps | cmd/background-newdisks-heal-ops.go:152-551 | over any run of progress, completions, resumes, resets, saves, crashes and reloads, with marshalled trackers reaching the drive later and in any order, or not at all, and with the second writer that marks the drive as finished: the tracker, each one marshalled, and the saved one show the totals of simple ledgers modulo 2^64, and the queue is what is listed and not healed |
| TrackerRuns.Perform | cmd/background-newdisks-heal-ops.go:152-335 | every event of such a run that happens to a tracker in memory is what the methods of the tracker and its drive do |
| TrackerRuns.ConcludedIsFinished | cmd/background-newdisks-heal-ops.go:508-551 | a drive that is marked as finished loads as finished, with the healed buckets, failed items and attempts of the file before; a tracker without a heal identity is deleted instead |
| TrackerRuns.LoadedId | cmd/background-newdisks-heal-ops.go:105-133 | a loaded tracker carries the identity of its drive |
| TrackerRuns.ReloadSucceeds | cmd/background-newdisks-heal-ops.go:105-133 | a tracker that was ever saved can be loaded again |
| TrackerRuns.CrashAndResume | cmd/background-newdisks-heal-ops.go:277-287 | after any run, a crash, a reload and a resume, the counters are the totals as of the last bucket completion contained in the tracker whose write reached the drive last |
| TrackerRuns.SkipsFollowToo | cmd/background-newdisks-heal-ops.go:152-170 | in runs without reset or retry the skipped counters obey the same law |
| TrackerRuns.ResetForgetsExactly | cmd/background-newdisks-heal-ops.go:152-170 | a reset followed by a resume leaves all counters zero if and only if nothing was skipped before the snapshot |
| TrackerRuns.SkippedItemReturns | cmd/background-newdisks-heal-ops.go:152-170 | a skipped item that comes back after a reset |
| TrackerRuns.InExactlyOneList | cmd/background-newdisks-heal-ops.go:291-323 | over any run from a list of distinct names, every listed bucket is queued or healed and not both |
| TrackerRuns.RetriesBounded | cmd/background-newdisks-heal-ops.go:495-506 | a drive is healed again at most four times, plus one for every new count of attempts that could not be saved |
| TrackerRuns.PassesBounded | cmd/background-newdisks-heal-ops.go:496-551 | the pass after which a drive is finished is the fifth at most, plus one for every count of attempts that could not be saved; if it leaves failed items in the counters, all attempts are used up |
| HealReports.RunShows | cmd/global-heal.go:242-282 | over any run of workers that send, a goroutine that receives, completions and resumes, the tracker shows the totals of what it received and did not forget, on top of what it showed before |
| HealReports.EveryReportCountsExactly | cmd/global-heal.go:242-282 | every report counts, in the order sent, if and only if no bucket begins while items that were received are not secured by a `bucketDone` |
| HealReports.FinishedPassCountsExactly | cmd/global-heal.go:242-564 | if every bucket is finished: every report counts if and only if no report that was pending at a `bucketDone` is received before the `resume` that follows |
| HealReports.LateReportVanishes | cmd/global-heal.go:242-564 | a run over two buckets in which the report of a failed item is received too late: both buckets are healed and no failed item is left, so the drive is not healed again |
| HealPass.HealErasureSet | cmd/global-heal.go:269-575 | a pass heals exactly the queued buckets before the first that cannot be healed: after trouble nothing is taken off the queue any more; its outcome is that of `NoErrorExactly`; its last check that the queue is empty never fails; its workers send exactly the items of all buckets up to the one that ends it, in order, and all reports are received; if all buckets were healed, the tracker's books for the pass hold exactly these items if and only if no report is received late, that is, if and only if no item is counted between one bucket and the next |
| HealPass.EverythingReported | cmd/global-heal.go:269-564 | its items are all that the workers of its buckets send, in order, up to the first bucket that ends the pass and including that one, whatever trouble there is before |
| HealPass.GoodOnesExactly | cmd/global-heal.go:286-564 | the buckets that it heals are those before the first that was not scanned completely or was cancelled |
| HealPass.OutcomeExactly | cmd/global-heal.go:286-575 | its outcome, by the first bucket that ends the pass: all drives healing, too few drives, or cancelled; without one all healed, or trouble if some bucket was not healed |
| HealPass.HealBucket | cmd/global-heal.go:269-564 | one bucket: how the loop goes on, what is marked as healed, that its run extends the one before by exactly the reports of its workers, and what is pending afterwards |
| HealPass.Scan | cmd/global-heal.go:375-543 | the workers of a bucket and the draining goroutine, move by move: exactly the reports of the workers are sent, in order; on a full channel a worker waits |
| HealPass.ReportsConcat | cmd/global-heal.go:249-282 | what the moves of a scan send goes move by move |
| HealPass.MovesConcat | cmd/global-heal.go:249-282 | and so does what they do to the channel |
| HealPass.Drain | cmd/global-heal.go:249-260 | the draining goroutine takes reports from the front, as many as it can; nothing is sent, and no bucket begins or ends |
| HealPass.PassCounts | cmd/global-heal.go:242-564 | the condition on the run and the one on its schedule are the same |
| HealPass.NoErrorExactly | cmd/global-heal.go:286-342 | a pass returns no error if and only if every bucket was healed, or the first bucket that ends it finds all drives healing |
| HealPass.ErrorSwallowed | cmd/global-heal.go:288-342 | in that case the error of an earlier bucket is not returned |
| HealPass.NotYetHealed | cmd/background-newdisks-heal-ops.go:270-274 | a pass over distinct buckets never meets one that is already healed, and taking one off its queue cannot panic |
| DriveHeal.HealDrive | cmd/background-newdisks-heal-ops.go:476-506 | one visit to a drive: before the pass the queue holds exactly the listed buckets that are not healed, in the order of the list, with the location of the drive and the totals of the last scan, and the tracker is saved with it; after a pass without an error it is cleared for another one, and saved, if and only if failed items are in the counters and attempts are left; if every bucket of the pass was healed and the drive is finished, every listed bucket is marked as healed |
| DriveHeal.SaveQueue | cmd/background-newdisks-heal-ops.go:476-493 | the queue, the location and the totals before a pass, and the save of them |
| DriveHeal.VisitConcludesExactly | cmd/background-newdisks-heal-ops.go:496-506 | after a pass without an error a drive is finished if and only if all attempts are used up or none of its failed items is left in the counters |
| DriveHeal.FailedConcludesExactly | cmd/background-newdisks-heal-ops.go:496-506 | if every bucket was healed, no item was counted between one bucket and the next, and an item failed: if and only if all attempts are used up |
| DriveHeal.ForgottenConcludes | cmd/background-newdisks-heal-ops.go:496-506 | otherwise a drive can be finished at any attempt although an item failed in its last pass |
| HealPass.NextDone | cmd/background-newdisks-heal-ops.go:302-307 | taking the head off a queue of distinct names leaves the rest |
| MsgPack.NumberOfBigEndian | cmd/background-newdisks-heal-ops_gen.go:549-646 | a number survives its big-endian bytes |
| MsgPack.MostSignificantFirst | cmd/background-newdisks-heal-ops_gen.go:549-646 | the first of several bytes weighs most |
| MsgPack.IntRoundTrip | cmd/background-newdisks-heal-ops_gen.go:557 | every 64-bit integer is restored from its format, which takes 1 to 9 bytes |
| MsgPack.Uint64RoundTrip | cmd/background-newdisks-heal-ops_gen.go:578 | the same for unsigned integers |
| MsgPack.StringRoundTrip | cmd/background-newdisks-heal-ops_gen.go:554 | the same for strings of up to 2^32 - 1 bytes, read as values or as map keys |
| MsgPack.ArrayHeaderRoundTrip | cmd/background-newdisks-heal-ops_gen.go:620 | the same for array headers |
| MsgPack.StringsRoundTrip | cmd/background-newdisks-heal-ops_gen.go:620-623 | a list of strings is restored in order |
| MsgPack.TimeRoundTrip | cmd/background-newdisks-heal-ops_gen.go:572 | a time is restored to the nanosecond from its 15 bytes |
| MsgPack.ReadTimeKeeps | cmd/background-newdisks-heal-ops_gen.go:703 | whatever is read as a time stands for the same number of nanoseconds as its bytes, carried over into whole seconds |
| MsgPack.SkipExtends | cmd/background-newdisks-heal-ops_gen.go:866-871 | skipping objects, nested ones included, does not depend on what follows them |
| MsgPackObjects.SkipsWhole | cmd/background-newdisks-heal-ops_gen.go:866-871 | every object is skipped whole and nothing behind it: any format of any family, with any objects nested in it to any depth |
| MsgPackObjects.ReadsInteger | cmd/background-newdisks-heal-ops_gen.go:673 | an integer in any of its formats, signed or not, is read as the number that it is |
| MsgPackObjects.ReadsText | cmd/background-newdisks-heal-ops_gen.go:658-669 | a string in any of its formats is read as its text; a binary is so as a map key only |
| MsgPackObjects.ReadsHeader | cmd/background-newdisks-heal-ops_gen.go:653 | the header of an array or map in any of its formats gives its number of elements or pairs |
| MsgPackObjects.ReadsOnlyItsFamily | cmd/background-newdisks-heal-ops_gen.go:649-876 | no object of another family is read as an integer, a truth value, a string, a binary, an array or a map |
| MsgPackObjects.IntIsSmallest | cmd/background-newdisks-heal-ops_gen.go:557 | an integer is written as an object that stands for it, and no signed format of it is shorter |
| MsgPackObjects.UintIsSmallest | cmd/background-newdisks-heal-ops_gen.go:578 | the same for unsigned integers and formats |
| MsgPackObjects.StringIsSmallest | cmd/background-newdisks-heal-ops_gen.go:554 | the same for strings |
| MsgPackObjects.ArrayHeaderIsSmallest | cmd/background-newdisks-heal-ops_gen.go:620 | the same for the headers of lists |
| MsgPackObjects.TimeIsWritten | cmd/background-newdisks-heal-ops_gen.go:572 | a time is written as the extension object of its seconds and nanoseconds |
| TrackerFields.NamesDiffer | cmd/background-newdisks-heal-ops_gen.go:665-866 | no two fields have the same name |
| TrackerFields.PrinterAndParserAgree | cmd/background-newdisks-heal-ops_gen.go:549-646 | the byte names written by the printer are the text names the parser looks for |
| TrackerFields.FieldOfKey | cmd/background-newdisks-heal-ops_gen.go:665-866 | the parser finds the field for each name that the printer writes |
| TrackerFields.StoredUnder0 | cmd/background-newdisks-heal-ops_gen.go:552-567 | the first five fields of a tracker, each with the name it is stored under; `StoredUnder5` to `StoredUnder25` have the others |
| TrackerFields.GetSet | cmd/background-newdisks-heal-ops_gen.go:665-866 | assigning a field changes that field only |
| TrackerCodec.ValueRoundTrip | cmd/background-newdisks-heal-ops_gen.go:549-646 | a value of each kind of field is restored from its encoding |
| TrackerCodec.ReadsDenoted | cmd/background-newdisks-heal-ops_gen.go:665-866 | a value of each kind of field is read from any object that stands for it, in whatever format it was written |
| TrackerCodec.ValueIsWritten | cmd/background-newdisks-heal-ops_gen.go:549-646 | a value is written as an object that stands for it |
| TrackerCodec.PairRoundTrip | cmd/background-newdisks-heal-ops_gen.go:658-873 | one turn of the parser assigns a known field, in any format of its value and its name, or skips an unknown name with its whole object, whatever that is, and consumes exactly the pair |
| TrackerCodec.Untouched | cmd/background-newdisks-heal-ops_gen.go:649-876 | a field that the message lacks keeps its value |
| TrackerCodec.LastWins | cmd/background-newdisks-heal-ops_gen.go:649-876 | of several values for a field the last one counts |
| TrackerCodec.AnyOrderDecodes | cmd/background-newdisks-heal-ops_gen.go:649-876 | the bytes of any map object, with pairs in any order, repeated, in any formats, with unknown names and arbitrary objects in between, decode to the tracker that the pairs describe, from any tracker to start with, consuming exactly the message |
| TrackerCodec.EncodeIsMap | cmd/background-newdisks-heal-ops_gen.go:549-646 | the encoding is the bytes of the map object of its 29 pairs |
| TrackerCodec.PermutedDescribes | cmd/background-newdisks-heal-ops_gen.go:649-876 | every permutation of the printed pairs describes the same tracker |
| TrackerCodec.RoundTrip | cmd/background-newdisks-heal-ops_gen.go:549-876 | round trip: decoding the encoding restores all 29 fields, whatever tracker it is read into, and consumes all of it |
| TrackerCodec.EncodeInjective | cmd/background-newdisks-heal-ops_gen.go:549-646 | no two trackers have the same encoding |
| TrackerPrinter.WholeFront | cmd/background-newdisks-heal-ops_gen.go:549-646 | the header and the 29 fields printed one by one are the encoding |
| TrackerPrinter.EncodeFits | cmd/background-newdisks-heal-ops_gen.go:879-890 | the encoding never outgrows the announced size |
| HealingTracker.HealingTracker.MarshalMsg | cmd/background-newdisks-heal-ops_gen.go:549-646 | the printer, field by field, gives the encoding |
| HealingTracker.HealingTracker.ParsePair | cmd/background-newdisks-heal-ops_gen.go:658-873 | the switch of the parser does what the specification of one pair says, failures included |
| HealingTracker.HealingTracker.UnmarshalMsg | cmd/background-newdisks-heal-ops_gen.go:649-876 | the countdown loop of the parser decodes the message or fails, exactly as specified |
| HealingTracker.HealingTracker.Msgsize | cmd/background-newdisks-heal-ops_gen.go:879-890 | the announced size, byte by byte of its constants and lists, which suffices for the encoding |
| WorkerPool.TokensAreSurplusWorkers | cmd/batch-handlers.go:1978-2050 | in every run the workers are as many as were asked for last plus the kill tokens not taken yet, and the channel never holds more than it has room for |
| WorkerPool.Drains | cmd/batch-handlers.go:1978-2050 | from every state with a size that is not negative the tokens can all be taken without another resize, and then exactly as many workers as asked for are left |
| WorkerPool.DrainsExactly | cmd/batch-handlers.go:2034-2050 | all kill tokens can be taken if and only if the size asked for last is not negative |
| WorkerPool.NegativeSizeStrands | cmd/batch-handlers.go:2034-2050 | with the size -1 a token is left that no worker is there to take |
| WorkerPool.NeverStuck | cmd/batch-handlers.go:1978-2032 | while there are tokens, some worker can end its job or take one |
| WorkerPool.BatchJobPool.ResizeWorkers | cmd/batch-handlers.go:2034-2050 | the two loops start the missing workers, or one sender of a kill token for each worker too many |
| TopLocks.TopLockEntries | cmd/admin-handlers.go:979-1011 | the entries are what some order of iteration over the maps gives: one per key, from all records of all peers that answered, and all of them or those with enough servers |
| TopLocks.VisitResource | cmd/admin-handlers.go:989-997 | all records of one resource at one peer are grouped |
| TopLocks.SameRecords | cmd/admin-handlers.go:985-998 | any two orders of iteration visit the same records, each once |
| TopLocks.SameServers | cmd/admin-handlers.go:991-995 | for each key any two orders of iteration list the same servers equally often |
| TopLocks.EntryTells | cmd/admin-handlers.go:959-998 | an entry says what the record that it was made from says: name, times, kind of lock, owner, quorum; its server list holds exactly the servers of the records with its name and request |
| TopLocks.StaleReportsEveryRecord | cmd/admin-handlers.go:1000-1004 | in stale mode the server lists together are as long as there are records |
| TopLocks.StaleReportsEveryKey | cmd/admin-handlers.go:1000-1004 | in stale mode the entries are those of all keys of records |
| TopLocks.QuorumReportsExactly | cmd/admin-handlers.go:1005-1007 | otherwise a lock is reported if and only if it has as many records as its quorum asks for, if its records agree on the quorum |
| TopLocks.OrderDoesNotMatter | cmd/admin-handlers.go:985-1008 | then any two orders of iteration report the same locks with the same servers |
| TopLocks.KeyInjective | cmd/admin-handlers.go:982-984 | the key names the lock and the request, if request identifiers contain no slash |
| TopLocks.KeyCollides | cmd/admin-handlers.go:982-984 | otherwise two different requests can share a key |

## Left out

- ExpireLoops.ExpireLoop.FindRule: a rule is a predicate on versions and a number to retain; the filters for age, name, tags, metadata and size are not modelled, they would be a finite conjunction.
- ExpireLoops.ExpireLoop.Consume: an error from starting the walk and the cause of a cancellation are not told apart from a cancelled context.
- ExpireDelete.BatchJobInfo.CountItem: 64-bit wrap-around of the counters, their saving to the drive and their metrics.
- ExpireDelete.Expire: an object layer that answers another number of errors than it was asked about.
- ExpireWorker.Work: delays between retries.
- ExpireJob.RunJob: runs its workers one after the other; other schedules are the interleavings of `ExpireJob.InterleavingsAddUp`. That deletions by the object layer have the effect their answers claim is taken for granted.
- HealRegistry.StepKeeps: the early answer that a heal is already running on the same path, which the overlap check under the lock repeats; tokens are numbers and paths are already joined.
- HealRegistry.StepForward: the branch for a traversal channel that is closed without a value, which the traversal never does.
- HealState.AllHealState.StopHealSequence: other requests that change the registry while it waits, which are steps of `HealRegistry`; a sequence that never ends keeps it waiting.
- HealState.AllHealState.LaunchNewHealSequence: what is sent to the client, and starting the goroutine.
- HealSequences.HealSequence.PushHealResultItem: real time; a full queue is tried once a second for a day.
- HealSequences.HealSequence.QueueHealTask: the text that a result reports about quorum loss; 64-bit wrap-around of the counters.
- HealingTracker.HealingTracker.BucketDone: the half-updated state that a panic leaves behind.
- HealingTracker.HealingTracker.MarshalMsg: lists of 2^32 or more elements, and strings of as many bytes, whose lengths the format cannot hold.
- HealingTracker.HealingTracker.UnmarshalMsg: which error a failed parse reports, the partly assigned tracker it leaves to a caller that drops it, and the reuse of a list's old array.
- MsgPack.SkipExtends: the limit on nesting.
- MsgPack.TimeRoundTrip: other extension types that a reader of times may accept.
- TrackerRuns.RetriesBounded: a tracker file that cannot be parsed is replaced by a new one, whose attempts start at 0.
- TrackerRuns.RunKeeps: a set whose lock is lost, so that two nodes work on it at a time; the second writer of a tracker runs while no pass over its drive does, as the lock of the set demands (cmd/background-newdisks-heal-ops.go:434-441).
- DriveHeal.HealDrive: listing and sorting the buckets, loading the tracker, and the finishing path, which are `HealingTracker.LoadHealingTracker` and events of `TrackerRuns`.
- HealPass.HealErasureSet: what the listing of a bucket finds and from where it resumes, the healing of one object, and the saves that the draining goroutine and the loop start, which are events of `TrackerRuns`. Workers that stop sending because the context is done send fewer reports.
- WorkerPool.TokensAreSurplusWorkers: the end of the pool's context, at which workers leave without a token.
- TopLocks.TopLockEntries: the final sorting, by an order that is defined outside the repository.
- The streaming twins `EncodeMsg` and `DecodeMsg`, and the codec of the expiry job, have the shape of the tracker's codec.
- `s3EncodeName`, which only chooses whether to encode, by the lower-cased encoding type.
- HTTP handlers, authentication, replication and key-rotation jobs, notifications and tracing: plumbing, or calls into code not modelled here.
- Nothing was executed: the properties are proved of the model.
