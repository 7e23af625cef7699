# Verification of the Nova event bus, blob store and execution core

This project models the stateful cores of Nova in Dafny and proves what they keep over whole runs.

* **Event bus** (`crates/nova-event`). Topic patterns, the wildcard subscription trie against a linear scan with the
  recursive matcher, the bounded event log against the full log, publish with its overflow policies and dead letters,
  runs of publishes, replay from a cursor, and event ids.
* **Blob store** (`crates/nova-blob`). Chunking, Merkle roots and proofs, reference-counted deduplication, garbage
  collection, multipart uploads, whole and ranged downloads, and the store as a state machine over all of them.
* **Execution core** (`crates/nova-executor`). The aging priority queue, cancellation tokens and the pipeline gate as
  interleaved steps, the circuit breaker, the retry loop, the middleware chain and the latency histogram.
* **Limiters** (`crates/nova-api`, `crates/nova-auth`). The pruned fixed-window rate limiter against one that never
  prunes, and the brute-force detector against one that keeps the full failure log.

Objects whose methods change their fields are classes; each method is proved against a function of its inputs and the old
state, and the properties are lemmas about those functions and about runs of them. Clock readings, fresh ids, random
jitter, content filters, quota verdicts and the outcome of guarded operations are parameters. The digest is a parameter
too: no function to strings of a fixed width is injective, so results that need "no collision" return the colliding pair.

## What turned out differently from the documentation

* `lookup` in the trie agrees with the linear scan because patterns carry `*` only in the last place;
  `SubscriptionTrie.MultiInsideIsUnreachable` shows that elsewhere the two would part company.
* Aging (`crates/nova-executor/src/types.rs:93-99`) never moves anything into the critical level, and a high-priority
  operation that is due goes to the back of its own level. "No starvation" therefore holds exactly as far as pops find the
  critical level empty: `capacity + 2` such pops suffice (`Starvation.ReturnedWithinFreePops`), one fewer does not
  (`Starvation.BoundIsMet`, for a capacity of at least two), no other pop returns anything below critical
  (`Starvation.OnlyFreePopsReturnIt`), and any critical operations at any times, one before each pop, starve the rest
  forever (`Starvation.StarvedForever`).
* `delete_blob` removes a chunk's bytes but leaves its record tracked, so `create_blob` later takes the chunk for a
  duplicate and does not write it. Over every run, deletions included, a live blob can be read if and only if none of its
  chunks was tracked without being stored when the blob was created (`BlobRuns.LiveBlobsReadBack`). A hash gets into that
  condition exactly when a deletion takes its last reference, and out of it only through the collector
  (`BlobRuns.MissingAfter`). So a blob created again right after its deletion can be read if and only if no chunk of it was
  in that condition before and other blobs still hold all of them (`BlobRuns.RecreatedReadableIff`); without deletions
  every live blob can be read.
* `download_range` overflows for `offset + length` of 64 bits or more and for offset 0 with length 0; on all other ranges
  it is exact, and needs only the chunks the range meets.
* `replay` starts at the cursor plus one, so the event at offset 0 is never replayed. Its cursor moves only on a send, so
  it may read one page forever. It does so if and only if a full page without a delivery that fits, and with no event past
  the target up to its end, lies behind the cursor or behind a delivery that fits (`ReplayTermination.EndsUnlessGap`). A
  delivery fits if its event is wanted and its channel has room for it beside what is owed through it before: all of this
  can be seen before the call.
* The `DropOldest` policy drops the newest event, as `DropNewest` does. A dead-letter queue of size 0 holds one entry.
  `requeue` removes by position after publishing, which hits the entry it published if and only if the dead letters of that
  publish fit in beside the old ones (`EventBus.RequeueTakesOut`).
* The breaker's comment speaks of the window since the last failure; the code measures it from the last change of state.
  With a failure threshold of at least two, a circuit that has been closed for longer than the window never opens by
  itself again; with a smaller one it does at its next failure (`CircuitBreaker.StaleCircuitStaysIff`). A circuit that
  never changed state counts failures without any window (`CircuitBreaker.FreshCircuitOpensAtThreshold`). Opening does not
  clear the success count: over every run a circuit recovers with the success that reaches the threshold together with all
  since it was last closed or reset, whatever happened in between (`CircuitBreaker.RecoversIff`). The pipeline reports only
  successes to the breaker.
* For a clock that never goes back the rate limiter lets through at most `2 * limit - 1` requests of one client in any
  interval of window length, and for windows of at least two milliseconds some run reaches that bound.
* `cleanup` of the brute-force detector drops a lock that is over but keeps the failures, where `is_locked` drops both. It
  can change a later answer if and only if it drops such a lock, a single failure does not lock and locks last at all
  (`BruteForce.CleanupShowsIff`); apart from that dropping failures shows nowhere (`BruteForce.DroppingIsInvisible`).
* `verify` of a Merkle proof accepts inner nodes as well as leaves: an accepted proof shows that the hash is a node of the
  tree, or that some chunk spells out two hashes on the way, collisions aside (`Merkle.AcceptedProves`).
* `drain` returning Ok stops later calls, but does not mean idle: a call can become active afterwards if and only if there
  are permits and one was past both gates by then, or at the second gate with that gate open or about to be opened by a
  drain that timed out (`PipelineGate.ActiveAfterDrainIff`).

## Model

| member | source | states |
|---|---|---|
| Topics.NewPattern | crates/nova-event/src/subscription.rs:19-52 | accepts exactly the strings with no empty piece and `*` nowhere but last; the segments render back to the pieces |
| Topics.JoinAfterSplit | crates/nova-event/src/subscription.rs:23-23 | joining the pieces of a split gives the text back |
| Topics.SplitAfterJoin | crates/nova-event/src/subscription.rs:23-23 | no other pieces without dots join up to the same text |
| Topics.RenderedPatternIsTheText | crates/nova-event/src/subscription.rs:47-51 | parsed segments determine the canonical text |
| Topics.MatchesIsDenotes | crates/nova-event/src/subscription.rs:54-70 | the recursive matcher accepts exactly what the pattern denotes position by position |
| SubscriptionTrie.ReachesIsMatches | crates/nova-event/src/trie.rs:109-143 | the paths a lookup collects are exactly the topics the recursive matcher accepts |
| SubscriptionTrie.MultiInsideIsUnreachable | crates/nova-event/src/trie.rs:119-128 | with `*` inside a pattern the lookup never collects it, whatever the event |
| SubscriptionTrie.Trie.Insert | crates/nova-event/src/trie.rs:42-67 | adds one occurrence to the live subscriptions and keeps the trie linked |
| SubscriptionTrie.Trie.GetOrInsert | crates/nova-event/src/trie.rs:45-63 | returns the child for a segment, made if absent, and changes no other path |
| SubscriptionTrie.Trie.Remove | crates/nova-event/src/trie.rs:69-71 | takes away one subscription with the id, or none has it and nothing changes |
| SubscriptionTrie.Trie.RemoveRecursive | crates/nova-event/src/trie.rs:73-101 | the same for the subtree below a node |
| SubscriptionTrie.Trie.Lookup | crates/nova-event/src/trie.rs:103-107 | returns each live subscription the event reaches, as often as it is live, and nothing else |
| SubscriptionTrie.Trie.LookupRecursive | crates/nova-event/src/trie.rs:109-143 | extends the results by exactly what the subtree owes the rest of the event |
| SubscriptionTrie.Trie.AllSubscriptions | crates/nova-event/src/trie.rs:145-149 | returns the live subscriptions as a multiset |
| SubscriptionTrie.Trie.Collect | crates/nova-event/src/trie.rs:151-162 | extends the list by exactly the subtree's subscriptions |
| SubscriptionTrie.Trie.SetActive | crates/nova-event/src/trie.rs:164-166 | switches one subscription with the id, or none has it and nothing changes |
| SubscriptionTrie.Trie.SetActiveRecursive | crates/nova-event/src/trie.rs:168-191 | the same for the subtree below a node |
| LinearScan.TrieRefinesList | crates/nova-event/src/trie.rs:42-191 | over every run of insert, remove and set_active with fresh ids the trie holds what a plain list would |
| LinearScan.LookupIsScan | crates/nova-event/src/trie.rs:103-143 | after every such run a lookup returns, as a multiset, what scanning the list with the matcher returns |
| EventStore.EventStore.Append | crates/nova-event/src/store.rs:39-57 | gives the next offset; the log's new entry has the event's fields one by one, and the store stays the end of the full log, as much as fits |
| EventStore.EventStore.ScanFrom | crates/nova-event/src/store.rs:59-70 | returns the stretch of the full log from the offset or the first retained event on |
| EventStore.PageIsFrom | crates/nova-event/src/store.rs:59-70 | a page holds the events from the offset or the first retained one on, one after the other, up to the limit or the end of the log |
| EventStore.EventStore.LatestOffset | crates/nova-event/src/store.rs:80-82 | the offset of the last event ever appended, 0 also when there is none |
| DeadLetters.DeadLetterQueue.Push | crates/nova-event/src/dead_letter.rs:28-35 | appends, after taking out the oldest entry of a full queue |
| DeadLetters.DeadLetterQueue.Pop | crates/nova-event/src/dead_letter.rs:37-39 | takes the oldest entry |
| DeadLetters.PushedAllIsLast | crates/nova-event/src/dead_letter.rs:28-35 | after any pushes the queue is the end of all that was pushed |
| DeadLetters.RequeueHitsIffNoneEvicted | crates/nova-event/src/dead_letter.rs:41-57 | what is removed is the entry as many places further on as publishing evicted: the published one if and only if the new dead letters fit in beside the old |
| EventBus.FanOutAttempts | crates/nova-event/src/bus.rs:140-206 | the attempts are the eligible subscriptions in order, all of them unless one rejected |
| EventBus.FanOutRejects | crates/nova-event/src/bus.rs:176-181 | a fan-out fails only by a rejection, by the rejecting policy alone, once, and as the last attempt |
| EventBus.FanOutTreats | crates/nova-event/src/bus.rs:164-205 | every attempt ends as its channel at that moment and the policy say: lost, a dead letter; with room, delivered at its end; full, dropped, rejected or blocked |
| EventBus.RejectsIff | crates/nova-event/src/bus.rs:176-181 | the rejecting policy turns a publisher away if and only if some connected channel has less room than the eligible subscriptions are to send through it |
| EventBus.StopsAtFirst | crates/nova-event/src/bus.rs:176-181 | a rejected fan-out stops at the first subscription with which that is so, and nothing behind it is tried |
| EventBus.LetterOfAttempt | crates/nova-event/src/bus.rs:195-204 | each lost channel leaves one dead letter, in order, with the event, its subscriber and the event's timestamp |
| EventBus.FanOutDelivers | crates/nova-event/src/bus.rs:164-205 | each channel grows at its end by exactly what was delivered to it |
| EventBus.FanOutRespectsCapacity | crates/nova-event/src/bus.rs:164-205 | no policy fills a channel beyond its capacity |
| EventBus.DropOldestIsDropNewest | crates/nova-event/src/bus.rs:171-175 | the two drop policies behave alike on every input |
| EventBus.BlockingLosesNothing | crates/nova-event/src/bus.rs:182-193 | a blocking publisher drops and rejects nothing while its blocked sends end with room |
| EventBus.AcceptedPublishReachesAll | crates/nova-event/src/bus.rs:112-213 | an accepted publish attempts exactly the live, active subscriptions whose pattern the recursive matcher accepts and whose filter passes, each once |
| EventBus.Bus.Publish | crates/nova-event/src/bus.rs:112-213 | each refusal exactly when its condition holds, BusFull if and only if the policy rejects and a channel is overrun; refusals change nothing; otherwise channels, counters, dead letters and log change as the fan-out says |
| EventBus.PublishIsFullIff | crates/nova-event/src/bus.rs:112-213 | of a publish that was let in: it fails if and only if the policy rejects and a channel is overrun |
| EventBus.Bus.FanOut | crates/nova-event/src/bus.rs:140-206 | the delivery loop is the fan-out function; counters and dead letters record each fate |
| EventBus.Bus.Deliver | crates/nova-event/src/bus.rs:164-205 | one send and what the overflow policy makes of a full or disconnected channel |
| EventBus.Bus.Requeue | crates/nova-event/src/dead_letter.rs:41-57 | publishes the entry and then removes by position; a failed publish removes nothing |
| EventBus.RequeueTakesOut | crates/nova-event/src/dead_letter.rs:41-57 | requeueing takes out the entry it published if and only if the dead letters of that publish fit in, else the one as many places further on as were pushed out |
| EventBus.Bus.Subscribe | crates/nova-event/src/bus.rs:215-222 | adds the subscription, keeps the subscriber count equal to the number of live ones, and every live pattern as parsing makes it |
| EventBus.Bus.Unsubscribe | crates/nova-event/src/bus.rs:224-232 | removes one subscription with the id, if there is one, and keeps the count right |
| EventBus.Bus.PauseSubscriber | crates/nova-event/src/bus.rs:255-260 | switches one off, or fails because none has the id |
| EventBus.Bus.ResumeSubscriber | crates/nova-event/src/bus.rs:262-267 | switches one on; an unknown id is no error |
| EventBus.Bus.ReplayTo | crates/nova-event/src/bus.rs:273-376 | replays to exactly the subscriber's live subscriptions, counts the sends, and says whether the loop runs forever |
| BusRuns.RunDelivers | crates/nova-event/src/bus.rs:112-376 | over every run of publishes and replays a channel takes exactly the events published and replayed to it, in that order |
| BusRuns.RunStores | crates/nova-event/src/bus.rs:208-210 | over every run the log grows by exactly the persistent events whose publish returned Ok, numbered through |
| BusRuns.ReplaySendsPublished | crates/nova-event/src/bus.rs:273-376 | over every run a replay puts into each channel exactly events an earlier publish stored, field by field as they were published but no longer persistent |
| BusRuns.KeptWasPublished | crates/nova-event/src/bus.rs:208-210 | each of those comes from an earlier persistent publish that returned an id |
| BusRuns.RunAccounts | crates/nova-event/src/bus.rs:133-206 | over every run each counter grows by the attempts of its own fate, and counters plus dead letters account for each attempt exactly once |
| Replay.ReplayAll | crates/nova-event/src/bus.rs:296-375 | the outer loop ends behind the log or at the first event past the target, or is reported as diverging exactly if no number of rounds ends it |
| Replay.ReplayPage | crates/nova-event/src/bus.rs:304-369 | one page is offered event by event up to the first one past the target |
| Replay.OfferToAll | crates/nova-event/src/bus.rs:311-368 | one event is offered to the subscriptions in order |
| Replay.DeliversExactly | crates/nova-event/src/bus.rs:273-376 | a replay that ends delivered exactly the retained events beyond the cursor that an active subscription's pattern and filter accept, up to the first past the target, refused sends aside |
| Replay.ReachesFirstPast | crates/nova-event/src/bus.rs:304-309 | a replay ends at the first retained event beyond the cursor whose timestamp is past the target, or at the end of the log if there is none |
| Replay.RebuiltIsStored | crates/nova-event/src/bus.rs:319-340 | what is sent again is the event that was stored, field by field, but no longer persistent |
| Replay.OffsetsIncrease | crates/nova-event/src/bus.rs:273-376 | one subscription is sent strictly increasing offsets beyond the cursor, none twice |
| Replay.DivergingRoundRepeats | crates/nova-event/src/bus.rs:296-375 | behind a full page that delivers nothing the next round reads the same page and changes nothing |
| Replay.ReplayOutcome | crates/nova-event/src/bus.rs:296-375 | every request leads to an end, or to a round that repeats forever |
| ReplayTermination.NothingRefused | crates/nova-event/src/bus.rs:348-360 | if everything owed fits, no send is ever refused |
| ReplayTermination.DeliversWhatFits | crates/nova-event/src/bus.rs:273-376 | a replay that ends delivered exactly what fits before the first event past the target: what is owed, as far as each channel has room beside what is owed through it before |
| ReplayTermination.EndsUnlessGap | crates/nova-event/src/bus.rs:296-375 | every request is replayed forever if and only if a full page without a delivery that fits, none up to its end past the target, lies behind the cursor or behind a delivery that fits |
| ReplayTermination.WithoutRoom | crates/nova-event/src/bus.rs:348-360 | with no room in any channel the loop runs forever if and only if a full page, none of it past the target, lies behind the cursor, wanted or not |
| ReplayTermination.SomeReplayRunsForever | crates/nova-event/src/bus.rs:296-375 | a request that asks for none of the events behind its cursor runs forever if and only if there are at least a thousand |
| Replay.DivergesBehindRefusedPage | crates/nova-event/src/bus.rs:348-360 | if the loop runs forever, every wanted event of the page behind its cursor was refused, and would be again |
| Replay.FirstEventIsNeverReplayed | crates/nova-event/src/bus.rs:297-299 | no cursor reaches offset 0 |
| EventIds.NewId | crates/nova-event/src/event.rs:13-26 | 16 bytes with the version and variant bytes in place |
| EventIds.TimestampRoundTrip | crates/nova-event/src/event.rs:13-32 | the timestamp of a new id is the clock reading in its 48 bits |
| EventIds.EqualIdsIff | crates/nova-event/src/event.rs:13-26 | two ids are equal if and only if 48 bits of time and 56 bits of counter agree |
| Chunks.SplitData | crates/nova-blob/src/chunk.rs:16-34 | on every input its loop ends on, the pieces and the hash of each, one empty chunk for no data |
| Chunks.FlattenAfterSplit | crates/nova-blob/src/chunk.rs:16-34 | the chunks put together are the data |
| Chunks.PieceAt | crates/nova-blob/src/chunk.rs:16-34 | chunk k is the k-th window of the chunk size, cut off at the end of the data |
| Chunks.SplitEndsIff | crates/nova-blob/src/chunk.rs:20-28 | the loop of split ends if and only if the chunk size is not zero or there is no data |
| Chunks.CountForSizeIsCount | crates/nova-blob/src/chunk.rs:42-47 | the count computed from the size is the number of chunks, in 32 bits |
| Merkle.NextLevelPairs | crates/nova-blob/src/merkle.rs:17-29 | each node of the next level joins two neighbours, or is the odd one out promoted |
| Merkle.Build | crates/nova-blob/src/merkle.rs:12-34 | the loop over levels computes the root |
| Merkle.Verify | crates/nova-blob/src/merkle.rs:36-47 | accepts if and only if folding the proof over the hash gives the root |
| Merkle.GenerateProof | crates/nova-blob/src/merkle.rs:49-82 | collects the sibling of every level that has one; nothing for an index beyond the leaves |
| Merkle.GeneratedProofsVerify | crates/nova-blob/src/merkle.rs:12-82 | the proof of every index of every list folds to the root, odd levels included |
| Merkle.OnlyTheLeafVerifies | crates/nova-blob/src/merkle.rs:36-82 | a proof of the shape of leaf i's own accepts no other hash, or here is a collision |
| Merkle.NodesVerify | crates/nova-blob/src/merkle.rs:36-47 | every node of the tree, inner ones included, has a proof that is accepted |
| Merkle.AcceptedProves | crates/nova-blob/src/merkle.rs:36-47 | an accepted proof of any shape for a hash of full width proves that it is a node of the tree, or that a chunk spells out two hashes on the way, or here is a collision |
| Merkle.RootBindsList | crates/nova-blob/src/merkle.rs:12-34 | equal roots of hash lists of equal length mean equal lists, or here is a collision |
| Merkle.ShorterListWithSameRoot | crates/nova-blob/src/merkle.rs:12-34 | without equal length the root does not bind: the next level has the same root |
| Blobs.Download | crates/nova-blob/src/download.rs:18-44 | returns the chunks put together if all are stored and intact and the whole hashes right; otherwise the first chunk that is not says which error |
| Blobs.ReadableIffStored | crates/nova-blob/src/download.rs:18-44 | a blob reads back as uploaded if all its chunks are stored and is not found otherwise, collisions aside |
| Blobs.DownloadRange | crates/nova-blob/src/download.rs:46-95 | exactly the bytes of the range if the chunks it meets are stored; invalid, overflowing and missing cases |
| Blobs.CopiedOneMore | crates/nova-blob/src/download.rs:64-84 | first, middle and last chunk each contribute exactly the bytes the range wants of them |
| Shelf.AddKeepsAvailableIff | crates/nova-blob/src/manager.rs:105-110 | adding chunks keeps everything readable if and only if none was tracked without being stored |
| Shelf.AddedAllCounts | crates/nova-blob/src/manager.rs:105-110 | each count grows by the occurrences of the hash among the chunks |
| Shelf.DroppedAllCounts | crates/nova-blob/src/gc.rs:81-90 | each count falls by the occurrences, and chunk and record go exactly when it reaches zero |
| BlobManagement.DeduplicationEngine.RecordChunk | crates/nova-blob/src/dedup.rs:28-51 | counts one more reference, or tracks the chunk with its size, one reference and the time, and answers which |
| BlobManagement.DeduplicationEngine.ReleaseChunk | crates/nova-blob/src/dedup.rs:53-67 | counts one reference less, saturating, and returns the count |
| BlobManagement.DeduplicationEngine.CollectUnreferenced | crates/nova-blob/src/dedup.rs:81-92 | the unreferenced records at least as old as the grace period, and those from the future, unless from so far off that the cast age is below it |
| BlobManagement.GarbageCollector.RunOnce | crates/nova-blob/src/gc.rs:39-63 | one pass is a sweep step followed by expiry steps; of the listed namespaces exactly the blobs without an expiry or with a later one survive |
| BlobManagement.GarbageCollector.CleanupExpiredBlobs | crates/nova-blob/src/gc.rs:65-105 | drops exactly the blobs of the listed namespaces whose expiry has come, each as an expiry step, and counts them |
| BlobManagement.BlobManager.CreateBlob | crates/nova-blob/src/manager.rs:91-149 | is a creation step, with exactly the metadata the data determine, or changes no blob |
| BlobManagement.BlobManager.InitiateUpload | crates/nova-blob/src/manager.rs:209-221 | validates the namespace and opens an empty session |
| BlobManagement.BlobManager.CompleteUpload | crates/nova-blob/src/manager.rs:227-252 | is the creation step of the parts put together, with the metadata they determine; the session is gone either way |
| BlobManagement.BlobManager.UploadInParts | crates/nova-blob/src/upload.rs:49-177 | a whole upload of any cut into parts succeeds exactly if the bytes fit, and leaves chunks, hashes and root as creating the blob from the bytes at once does |
| BlobManagement.BlobManager.DeleteBlob | crates/nova-blob/src/manager.rs:161-175 | is a deletion step, or the blob is not found |
| BlobManagement.BlobManager.GetBlob | crates/nova-blob/src/manager.rs:151-153 | the uploaded bytes if its chunks are stored, not found otherwise, collisions aside |
| BlobManagement.BlobManager.GetBlobRange | crates/nova-blob/src/manager.rs:155-159 | the uploaded bytes of the range if the chunks it meets are stored, and the error cases |
| BlobManagement.BlobManager.SetExpiry | crates/nova-blob/src/manager.rs:289-291 | rewriting a live blob's expiry through the store handle is a step that keeps the store consistent |
| BlobManagement.BlobManager.RunGc | crates/nova-blob/src/manager.rs:268-270 | keeps counts and readability, leaves exactly the blobs without an expiry or with one after the pass, unchanged, and forgets what it swept |
| BlobRuns.NextKeepsConsistent | crates/nova-blob/src/manager.rs:91-175 | after every step each count equals the references of all live blobs |
| BlobRuns.RunsAreConsistent | crates/nova-blob/src/dedup.rs:28-67 | so it does in every state of every run |
| BlobRuns.ReleasesNeverSaturate | crates/nova-blob/src/dedup.rs:56-58 | no release inside a deletion or expiry finds a count of zero |
| BlobRuns.SweepIsSafe | crates/nova-blob/src/gc.rs:42-57 | the sweep takes no chunk a live blob refers to |
| BlobRuns.DropSparesOthers | crates/nova-blob/src/gc.rs:81-90 | dropping one blob leaves every chunk of every other blob in place |
| BlobRuns.LivesUntilDue | crates/nova-blob/src/gc.rs:65-105 | over every run a blob that nobody deletes lives on through every pass before its expiry |
| BlobRuns.MissingAfter | crates/nova-blob/src/manager.rs:161-169 | a hash becomes tracked without being stored exactly when a deletion takes its last reference, and only the collector ends that |
| BlobRuns.StatusKept | crates/nova-blob/src/manager.rs:105-169 | while a blob lives, whatever else happens, each of its chunks stays stored or stays not stored |
| BlobRuns.LiveBlobStoredIff | crates/nova-blob/src/manager.rs:91-175 | over every run, deletions included, a live blob's chunks are all stored if and only if none was missing when it was created |
| BlobRuns.LiveBlobsReadBack | crates/nova-blob/src/download.rs:18-44 | over every run a live blob reads back as uploaded under that condition and is not found otherwise, collisions aside |
| BlobRuns.AllStoredWithoutDeletions | crates/nova-blob/src/gc.rs:81-90 | over every run without deletions all chunks of every live blob are stored |
| BlobRuns.RunsWithoutDeleteMissNothing | crates/nova-blob/src/gc.rs:81-90 | over every run without deletions a chunk is tracked if and only if it is stored |
| BlobRuns.CollectorPassKeeps | crates/nova-blob/src/gc.rs:39-105 | a whole pass keeps counts and readability and makes no chunk missing |
| BlobRuns.NewBlobReadableIff | crates/nova-blob/src/manager.rs:105-110 | a new blob can be read if and only if none of its chunks was tracked without being stored |
| BlobRuns.RecreatedReadableIff | crates/nova-blob/src/manager.rs:161-175 | from any consistent store: deleted and created again, a blob can be read if and only if no chunk was missing before and other blobs hold them all |
| BlobRuns.RecreatedBlobIsLost | crates/nova-blob/src/manager.rs:165-168 | create, drop, create again: in every later state the second blob can be read if and only if the first was dropped the collector's way |
| BlobRuns.SomeRunCreatesAgain | crates/nova-blob/src/manager.rs:161-175 | such runs, for any data, chunk size and way of dropping |
| Uploads.UploadManager.Initiate | crates/nova-blob/src/upload.rs:49-86 | opens an empty session |
| Uploads.UploadManager.UploadPart | crates/nova-blob/src/upload.rs:88-121 | appends the part unless unknown, aborted or too large in all; no session exceeds the largest blob |
| Uploads.UploadManager.Complete | crates/nova-blob/src/upload.rs:123-177 | metadata and chunks of the parts put together if the declared size fits; removes the session in any case |
| Uploads.UploadManager.Abort | crates/nova-blob/src/upload.rs:179-187 | marks the session, which stays listed |
| OperationQueue.AgedKeeps | crates/nova-executor/src/operation_queue.rs:112-142 | aging loses and doubles nothing, keeps each operation at its own level, and leaves critical alone |
| OperationQueue.PoppedKeeps | crates/nova-executor/src/operation_queue.rs:103-158 | a pop takes one operation off and keeps the rest |
| OperationQueue.PopServesBest | crates/nova-executor/src/operation_queue.rs:143-155 | after aging every level of smaller rank than the returned operation's is empty, and the operation is the first of its own |
| OperationQueue.DrainedKeeps | crates/nova-executor/src/operation_queue.rs:177-196 | a drain splits the queue by deadline |
| OperationQueue.DrainsBestFirst | crates/nova-executor/src/operation_queue.rs:177-196 | a drain takes the levels one after the other, the best first |
| OperationQueue.ExpiredFromTheBack | crates/nova-executor/src/operation_queue.rs:181-191 | what is drained from one level comes out last one first |
| OperationQueue.TakeDue | crates/nova-executor/src/operation_queue.rs:118-128 | the index-decrementing loop keeps the others in order and takes out the due ones |
| OperationQueue.Promote | crates/nova-executor/src/operation_queue.rs:130-141 | each due operation goes to the back of the level above, from high to its own back |
| OperationQueue.TakeExpired | crates/nova-executor/src/operation_queue.rs:181-191 | the draining loop takes out exactly what is due |
| OperationQueue.Queue.Push | crates/nova-executor/src/operation_queue.rs:77-101 | accepts if and only if the queue and the level's 64, 128, 512 or 320 places have room, and counts rejections |
| OperationQueue.Queue.PopPriority | crates/nova-executor/src/operation_queue.rs:103-158 | ages, then returns the front of the level while every better one is empty, and leaves the rest; what was accepted is popped, cancelled, drained or queued |
| OperationQueue.Queue.CancelAll | crates/nova-executor/src/operation_queue.rs:160-175 | empties the queue, says how many, and keeps the accounts |
| OperationQueue.Queue.Drain | crates/nova-executor/src/operation_queue.rs:177-196 | returns exactly what is due by the deadline and keeps the accounts |
| Starvation.KeptInOrder | crates/nova-executor/src/operation_queue.rs:118-128 | operations that are not due keep their relative order |
| Starvation.AgedClimbs | crates/nova-executor/src/operation_queue.rs:112-142 | one aging brings a long-waiting operation to the high level, or leaves it no further back |
| Starvation.AgesExactly | crates/nova-executor/src/operation_queue.rs:112-142 | what one aging makes of any operation: promotions and level by its wait of 500 ms, 2 s or 10 s, and its place otherwise |
| Starvation.CloserAtEveryFreePop | crates/nova-executor/src/operation_queue.rs:103-158 | over every run, each pop that finds critical empty brings a waiting operation closer |
| Starvation.ReturnedWithinFreePops | crates/nova-executor/src/operation_queue.rs:103-158 | capacity + 2 such pops return it, whatever is pushed in between |
| Starvation.BoundIsMet | crates/nova-executor/src/operation_queue.rs:103-158 | a run of capacity + 1 such pops that does not return it, for every capacity of at least two and whenever the pops come |
| Starvation.OnlyFreePopsReturnIt | crates/nova-executor/src/operation_queue.rs:144-155 | a pop returns a critical operation if and only if one is queued |
| Starvation.StarvedForever | crates/nova-executor/src/types.rs:93-99 | with critical operations arriving one before each pop, any and at any times, exactly those are returned and all else stays queued |
| Cancellation.RunInv | crates/nova-executor/src/cancellation.rs:33-73 | in every interleaving each callback is in exactly one place and has run once if that place says so |
| Cancellation.NeverTwice | crates/nova-executor/src/cancellation.rs:33-73 | no interleaving runs a callback twice |
| Cancellation.OnceAllFinished | crates/nova-executor/src/cancellation.rs:33-93 | after a cancel, once all threads are through, the token's flag is set, every callback ran exactly once and every child's flag is set |
| Cancellation.LateCallbackRunsAtOnce | crates/nova-executor/src/cancellation.rs:54-58 | a callback registered on a cancelled token runs with its caller's next step and waits for no lock |
| Cancellation.NoneWithoutCancel | crates/nova-executor/src/cancellation.rs:33-93 | without a cancel no callback runs, and cancelling children sets no flag but theirs |
| Cancellation.CancelledChildIsFlagged | crates/nova-executor/src/cancellation.rs:33-34 | a child that was cancelled directly has its flag set from then on |
| Cancellation.SomeoneCanStep | crates/nova-executor/src/cancellation.rs:33-73 | no interleaving deadlocks |
| Cancellation.SchedulesEnd | crates/nova-executor/src/cancellation.rs:33-73 | no schedule is longer than five steps a thread, and one that cannot go on has finished every thread |
| CircuitBreaker.RunsKeepInv | crates/nova-executor/src/circuit_breaker.rs:52-170 | over every run counts stay below the threshold and the counters account for open and half-open circuits |
| CircuitBreaker.OthersUntouched | crates/nova-executor/src/circuit_breaker.rs:52-170 | a call on one subsystem changes nothing about another |
| CircuitBreaker.OpensIff | crates/nova-executor/src/circuit_breaker.rs:52-170 | over every run a circuit opens by itself if and only if a tracked failure is let through and the threshold is at most one, or reached within the window together with the failures of the run counted so far |
| CircuitBreaker.FailuresOfRun | crates/nova-executor/src/circuit_breaker.rs:52-170 | over every run the failures counted are those let through since the circuit opened by itself, was closed or reset, or since the last one past the window |
| CircuitBreaker.SuccessesOfRun | crates/nova-executor/src/circuit_breaker.rs:52-170 | over every run the successes counted are those let through since the circuit was last closed or reset, openings in between included |
| CircuitBreaker.RecoversIff | crates/nova-executor/src/circuit_breaker.rs:52-170 | over every run a success let through to an open or half-open circuit closes it if and only if it reaches the threshold together with those |
| CircuitBreaker.OpenRefusesUntil | crates/nova-executor/src/circuit_breaker.rs:52-66 | over every run an open circuit refuses every call that starts before its timeout, or before the forced hour is over, and changes nothing but the count of rejections; the first call in time runs half open |
| CircuitBreaker.StaleCircuitStaysIff | crates/nova-executor/src/circuit_breaker.rs:86-104 | closed for longer than the window, a circuit stays as it is if and only if the threshold is at least two or no tracked failure follows |
| CircuitBreaker.FreshCircuitOpensAtThreshold | crates/nova-executor/src/circuit_breaker.rs:86-109 | a circuit that never changed state opens at the threshold however far apart the failures are, and keeps its successes |
| CircuitBreaker.OneSuccessRecoversIff | crates/nova-executor/src/circuit_breaker.rs:69-84 | a run that shows it: after successes, failures and the timeout one success closes the circuit if and only if with the earlier ones it reaches the threshold |
| CircuitBreaker.SuccessesNeverOpen | crates/nova-executor/src/pipeline.rs:373-379 | the pipeline's way of driving the breaker opens nothing |
| CircuitBreaker.CircuitBreaker.Execute | crates/nova-executor/src/circuit_breaker.rs:52-112 | refuses if and only if the circuit is open and its time has not come, else runs the operation and moves state, counts and counters |
| CircuitBreaker.CircuitBreaker.OnFailure | crates/nova-executor/src/circuit_breaker.rs:85-109 | the failure branch |
| CircuitBreaker.CircuitBreaker.OnSuccess | crates/nova-executor/src/circuit_breaker.rs:69-84 | the success branch |
| CircuitBreaker.CircuitBreaker.SetState | crates/nova-executor/src/circuit_breaker.rs:122-138 | a change of state, its time and its counter |
| CircuitBreaker.CircuitBreaker.ForceOpen | crates/nova-executor/src/circuit_breaker.rs:154-159 | opens for an hour and keeps the failure count |
| CircuitBreaker.CircuitBreaker.ForceClose | crates/nova-executor/src/circuit_breaker.rs:161-163 | closes and clears the counts |
| CircuitBreaker.CircuitBreaker.ResetSubsystem | crates/nova-executor/src/circuit_breaker.rs:165-170 | forgets everything about the subsystem |
| PipelineGate.RunKeepsInv | crates/nova-executor/src/pipeline.rs:134-196 | in every interleaving the counter is the number of active calls and every permit is free or held |
| PipelineGate.ActiveIsBounded | crates/nova-executor/src/pipeline.rs:157-193 | the counter never exceeds the permits |
| PipelineGate.AllReturned | crates/nova-executor/src/pipeline.rs:134-196 | when all calls are through, counter and permits are back where they began |
| PipelineGate.StoppedForGood | crates/nova-executor/src/pipeline.rs:586-598 | a stopped pipeline stays stopped; only calls past the first gate by then can still be active |
| PipelineGate.RefusedAfterDrain | crates/nova-executor/src/pipeline.rs:586-598 | once a drain returned Ok every later call is refused at its first step |
| PipelineGate.DrainHasSeen | crates/nova-executor/src/pipeline.rs:586-598 | a drain that returned Ok has seen a moment without active calls, and one that failed a moment with some |
| PipelineGate.RefusedWhileDraining | crates/nova-executor/src/pipeline.rs:134-143 | from a drain's first step on whatever comes to the second gate is refused, until some drain times out |
| PipelineGate.ActiveAfterDrainIff | crates/nova-executor/src/pipeline.rs:586-598 | once a drain returned Ok a call can still become active if and only if there are permits and one was past both gates, or at a second gate that is or may be opened |
| PipelineGate.ActiveAfterDrain | crates/nova-executor/src/pipeline.rs:586-598 | a run in which that happens |
| Retry.ExecuteWithRetry | crates/nova-executor/src/pipeline.rs:293-392 | ends; at most one execution more than the smaller limit; each pause is shorter than the time left; how it ends |
| Retry.EndIsDetermined | crates/nova-executor/src/pipeline.rs:293-392 | what the attempts meet decides outcome, executions and pauses |
| Retry.EndMeans | crates/nova-executor/src/pipeline.rs:293-392 | what each outcome means for the last attempt, and that every attempt before was in time, found the circuit closed and failed with a retryable error |
| Retry.PauseIsBackoffAndAFifth | crates/nova-executor/src/pipeline.rs:304-331 | a pause is base * 5^(attempt - 1) milliseconds, cut off at the maximum, plus at most a fifth |
| Retry.BackoffIsExact | crates/nova-executor/src/pipeline.rs:556-561 | saturation never shows: the delay is base * 5^(attempt - 1), cut off at the maximum |
| Retry.BackoffGrows | crates/nova-executor/src/pipeline.rs:556-561 | the delay does not fall from one attempt to the next |
| Histogram.Histogram.constructor | crates/nova-executor/src/metrics.rs:52-77 | empty buckets with the fixed bounds |
| Histogram.Histogram.Record | crates/nova-executor/src/metrics.rs:79-88 | up to each bound the buckets count exactly the recorded values at or below it |
| Histogram.Histogram.Percentile | crates/nova-executor/src/metrics.rs:111-124 | the least bound that covers the least rank not below the share; the fall-through is unreachable |
| Histogram.Histogram.Avg | crates/nova-executor/src/metrics.rs:99-105 | the mean of the recorded values, rounded down |
| Histogram.BoundCoversOrderStatistic | crates/nova-executor/src/metrics.rs:111-124 | what a percentile returns is the least bound at or above the exact order statistic of the sorted values |
| RateLimiter.RateLimitState.Admit | crates/nova-api/src/middleware.rs:466-488 | one request: its window, permit, remaining and reset time, and which other windows stay |
| RateLimiter.PruningIsInvisible | crates/nova-api/src/middleware.rs:469-471 | for a clock that never goes back pruning changes no decision |
| RateLimiter.FewerThanTwiceTheLimit | crates/nova-api/src/middleware.rs:460-488 | for a clock that never goes back any interval of window length lets through at most 2 * limit - 1 requests of one client |
| RateLimiter.BoundIsMet | crates/nova-api/src/middleware.rs:460-488 | a run that reaches the bound, for every limit and every window of at least two milliseconds |
| MiddlewareChain.MiddlewareChain.Register | crates/nova-executor/src/middleware.rs:38-47 | adds the middleware unless the name is taken |
| MiddlewareChain.MiddlewareChain.Unregister | crates/nova-executor/src/middleware.rs:49-57 | takes out the one with the name, if there is one |
| MiddlewareChain.MiddlewareChain.SetEnabled | crates/nova-executor/src/middleware.rs:59-73 | switches exactly the one with the name |
| MiddlewareChain.MiddlewareChain.ForStage | crates/nova-executor/src/middleware.rs:75-83 | the enabled middleware of the stage, stably sorted by order |
| MiddlewareChain.SelectedExactly | crates/nova-executor/src/middleware.rs:76-80 | of the registrations exactly the enabled ones of the stage, in the order they have |
| MiddlewareChain.StableSortIsUnique | crates/nova-executor/src/middleware.rs:81-82 | ascending order with ties kept in place leaves only one such list |
| MiddlewareChain.MiddlewareChain.RunChain | crates/nova-executor/src/middleware.rs:85-117 | the loop from the back composes the right fold over that list |
| MiddlewareChain.ActInOrder | crates/nova-executor/src/middleware.rs:85-117 | middleware that pass the call on act in the order of the list, and the stage comes last |
| MiddlewareChain.NothingBehindShortCircuit | crates/nova-executor/src/middleware.rs:85-117 | behind one that answers by itself neither what follows nor the stage matters |
| BruteForce.BruteForceDetector.RecordFailure | crates/nova-auth/src/brute_force.rs:28-55 | one failure of one identifier: counted, stale ones dropped, locked at the limit; others untouched |
| BruteForce.BruteForceDetector.RecordSuccess | crates/nova-auth/src/brute_force.rs:57-60 | forgets everything about the identifier |
| BruteForce.BruteForceDetector.CheckLocked | crates/nova-auth/src/brute_force.rs:63-74 | says whether the identifier is locked, and forgets it when the lock is over |
| BruteForce.BruteForceDetector.Clean | crates/nova-auth/src/brute_force.rs:90-106 | drops stale failures and locks that are over, for every identifier |
| BruteForce.PrunedIsWithin | crates/nova-auth/src/brute_force.rs:38-46 | on ascending times popping stale failures off the front is filtering |
| BruteForce.DequeIsFilterOfLog | crates/nova-auth/src/brute_force.rs:28-106 | over every run the deque is a filter of the full failure log, and the lock is the full log's |
| BruteForce.LocksIff | crates/nova-auth/src/brute_force.rs:28-55 | over every run a failure locks for the lockout time if and only if, with it, at least the limit of the full log lies within the window before it |
| BruteForce.DroppingIsInvisible | crates/nova-auth/src/brute_force.rs:28-106 | so dropping changes no answer, and each failure is counted with exactly those within the window before it |
| BruteForce.CleanupShowsIff | crates/nova-auth/src/brute_force.rs:63-106 | a cleanup can change a later answer if and only if it drops a lock that is over, a single failure does not lock, and locks last at all |

## Left out

- SubscriptionTrie.Trie.Insert: the pattern argument is the subscription's own topic, which is how the bus calls it; other fields of a subscription are not carried along.
- SubscriptionTrie.Trie.Lookup: one call at a time; the locks of its nodes are not modelled.
- BruteForce.BruteForceDetector.RecordFailure: one call at a time; the two concurrent maps are not locked together in the source.
- EventBus.Bus.Subscribe: patterns are as `TopicPattern::new` makes them, with `*` in the last place only; the type's public fields would let a caller build others.
- EventStore.EventStore.Append: appends come one after the other; the offset is drawn before the lock, so concurrent appends may store out of order.
- Replay.ReplayAll: no receiver takes events and nothing is appended while a replay runs; where the source would loop forever the model returns that fact.
- EventBus.Bus.ReplayTo: a replay that runs forever is returned as a value, and turns after it are not part of a run.
- EventBus.Bus.Publish: shard selection (computed and never used, it fails for a shard count of 0), latency and byte metrics, and the evaluation of content filters, which is a parameter.
- EventBus.Bus.Requeue: the queue is the bus's own; requeueing into another bus is not modelled.
- Blobs.DownloadRange: overflow is taken to stop the call, as in checked arithmetic; a build without overflow checks wraps instead.
- BlobManagement.BlobManager.constructor: the configured chunk size is not zero; with zero no upload but the empty one would ever return.
- BlobManagement.BlobManager.CreateBlob: storage cannot fail, namespace validation and the quota verdict are parameters, usage counters and statistics are not kept; one operation at a time.
- BlobManagement.BlobManager.SetExpiry: of all that the store handle lets a caller rewrite, only the expiry of a live blob.
- BlobManagement.GarbageCollector.RunOnce: deletion from the store cannot fail, so its error branches are not modelled.
- Uploads.UploadManager.Complete: the messages of internal errors are kept apart as different errors.
- OperationQueue.Queue.PopPriority: wait-time statistics and the atomic copy of the depth are not kept; the array of four deques is a record of four sequences.
- Starvation.ReturnedWithinFreePops: drains that take the operation and `cancel_all` are excluded, pops come once the operation has waited for the slowest level's limit.
- Cancellation.OnceAllFinished: the flags are read and written in one order all threads agree on, `drain` is not called, callbacks do not call back into the token, a child's own callbacks are not modelled.
- CircuitBreaker.CircuitBreaker.Execute: one call at a time; the clock is read once before and once after the operation.
- PipelineGate.ActiveIsBounded: calls run to completion; dropping a call's future while it is active is not modelled.
- Retry.ExecuteWithRetry: the jitter is any number of whole milliseconds; the stages and the clock are what each attempt meets.
- Histogram.Histogram.Record: total, bucket counts and running sum do not wrap at 64 bits.
- Histogram.Histogram.Avg: the running sum it divides does not wrap at 64 bits.
- Histogram.Histogram.Percentile: whole percentages in exact arithmetic; the source computes the target in floating point.
- RateLimiter.RateLimitState.Admit: the 32-bit count of one window does not wrap, and the response headers are not built.
- MiddlewareChain.MiddlewareChain.RunChain: context, request and result are one state value; the library's sort is modelled as insertion, which its stability determines.
- Counters elsewhere (offsets, reference counts, metrics) do not wrap at their 64 bits.
- Filesystem backend, saved deduplication state, namespaces and quotas, part listing and paginated listing of blobs: storage plumbing or single checks.
- Stage functions, idempotency cache, error responses, event-type parsing, filter expressions and percent decoding: they would add only easy members.
- HTTP, WebSocket, CLI, dashboard, GraphQL, SDK, configuration, authentication and the remaining crates.
