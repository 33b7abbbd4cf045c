# Verified models of the CMDB platform

Dafny models of the parts of the platform whose correctness rests on more than one function: the fence between
reads and journaled writes, pattern matching and the pattern lifecycle behind their caches, the codecs and printers,
the signatures of discovery sessions, and the translation of connector descriptors. `dafny verify dfyconfig.toml`
checks everything.

## Components

**Read/write admission.** `journal.dfy` is the reconciliation journal as PostgreSQL rows, fence nodes and one graph,
with one event per statement or transaction (T1, T1b, W, T2, abort, sweep, failure, requeue). What the read fence
relies on is proved of it: only T1 opens a gap or moves the epoch, and the graph is written only under an open gap.
One thing is taken from the callers of the journal: that a planned write names only CIs of its own group.
`read_fence.dfy` runs any number of list reads and referenced writes against it, statement by statement, in any
interleaving, with failures and lost backends. `lock_turns.dfy` is the promise chain in front of the admission lock,
as a transition system and as the class that updates it, and `write_queue.dfy` joins it to the connections that its
writes hold; `list_read.dfy` and `referenced_write.dfy` are the exits of one list read and of one write;
`global_page.dfy` is the platform-wide reads. `fence_progress.dfy` shows the other side of safety: what reads, writes
and the journal do get done.

**Patterns.** `framing.dfy` and `pattern_matcher.dfy` show that a shared, lossy cache never changes an answer, short
of a collision of SHA-256 among the texts of the run. `detection_plan.dfy` is the detection of one plan.
`pattern_lifecycle.dfy` specifies storage and workflow over database, memory, Redis entries and the Redis list;
`pattern_storage.dfy` holds the classes that update those stores, proved equal to it. The authority gate, which as
shipped always refuses, is a parameter; both settings are covered. `pattern_answers.dfy` says, case by case, what each
call answers and leaves in every store.

**Codecs and printers.** `cache_codec.dfy` and `service_view.dfy`, `request_shape.dfy`, `csv.dfy` (read back by the
rules of section 2 of RFC 4180, with LF line breaks). The printed JSON follows sections 4, 5 and 7 of RFC 8259.
`json_reader.dfy` is an independent reader of JSON in UTF-8 that the measured text is checked against.

**Session signatures.** `rolling_hash.dfy`, `session_signature.dfy`, `session_similarity.dfy`, `common_elements.dfy`.
`signature_content.dfy` says what a signature is made of over the calls themselves, and `signature_text.dfy` that the
hashed text is its JSON text.

**Descriptors.** `descriptor_mapper.dfy`, with the shared report as an object the mapping functions push to.
`descriptor_fields.dfy` says what each mapped part contains.

`sequences.dfy` and `wrappers.dfy` are shared helpers.

## What the models show beyond the comments in the code

- The cache codec loses more than tag-shaped objects: undefined, NaN, infinities, negative zero and members named
  `__proto__` do not survive either. `CacheCodec.RoundTripIffClean` is the exact condition.
- A BEGIN of the locked list read that runs into its query timeout although the server carries it out leaves a pooled
  connection inside a transaction; it is the only such case (`ListRead.ListReader.ReadCIList`).
- A referenced write that hides the failure of one of its statements is reported as a success although PostgreSQL answers
  its COMMIT with a rollback; a committed one is reported as a failure only when the answer to COMMIT is lost
  (`ReferencedWrite.WriteReferencedCIs`).
- The key built by `filterGlobalCIGaps` can be shared by a row that no operation names. There are two ways, an id that is
  not a string and an organization longer than a UUID (`GlobalPage.ShadowsIff`), and without them the filter is exact
  (`GlobalPage.FilterIsAlwaysExactIff`).
- Cache invalidation is not optional for the lifecycle: if Redis misses two deletions, a later rejection works on the
  stale copy and leaves a draft that is still active (`PatternLifecycle.LostDeletionLeavesActiveDraft`);
  `PatternLifecycle.AdvanceKeepsRowsIff` is the exact condition for one call.
- `mapFieldMappings` promises to report every entry it does not keep, but a text under `__proto__` is neither kept nor
  reported (`DescriptorMapper.MappingsAreConservedIff`); a credential-like property that cannot be mapped is reported twice
  when no explicit credential was mapped (`DescriptorMapper.PropertyIsConserved`).
- The comment on common ports says more than half of the sessions; the code takes half or more, which is why two ports
  can qualify. For headers, endpoints and service names repetitions count, so one session can decide for all
  (`CommonElements.OneSessionCanDecide`); `CommonElements.ReportedIffHeldIff` says when the result is what it seems.
- An inferred OAuth kind needs a method, so the provider is never taken from the metadata
  (`DescriptorMapper.AuthFits`).
- Equal signature hashes do not mean similar sessions (`SessionSimilarity.UnlikeSessionsCanBeSimilar`).
- CSV headers are written without quotes, so `Csv.ReadsBackIffPlain` needs plain headers, and only those.

## Model

| member | source | states |
|---|---|---|
| Journal.WriteIsHidden | packages/database/src/journal/journal.ts:91-111 | A write statement changes nothing that a reader hiding the CIs it names can see, deleted CIs and their relationships included |
| Journal.GapMonotone | packages/database/src/journal/journal.ts:193-234 | Only T1 opens gaps and moves the epoch; every other journal statement can only shrink the set of pending and failed CIs |
| Journal.StepKeepsInv | packages/database/src/journal/journal.ts:319-337 | A group whose gap is closed can never reach the graph any more: its request is over, or a fence node already decides it; kept by T1, T1b, W, T2, abort, sweep, failure and requeue |
| Journal.StepIsHidden | packages/database/src/journal/journal.ts:394-418 | A journal step changes the graph only under an open gap, so a reader that hides every pending and failed CI sees no change |
| FenceProgress.WritesDoWhatTheySay | packages/database/src/journal/journal.ts:91-111 | A write does to the CI or relationship it names what it says, and leaves no relationship without its ends |
| FenceProgress.JournaledWriteCompletes | packages/database/src/journal/journal.ts:193-234 | A write that can be applied gets there: after reservation, plan, write and settling the graph is the written one and its CIs are no gap any more |
| FenceProgress.AbandonedWriteIsSwept | packages/database/src/journal/journal.ts:447-508 | A reservation whose request went away is swept: its gap closes, the graph is untouched, and its write can no longer happen |
| FenceProgress.FailedWriteIsRequeued | packages/database/src/journal/journal.ts:457-517 | A failed operation stays in the gap, out of reach of settling and sweeping, until it is requeued, which restores the journal as it was |
| FenceProgress.AbortedWriteIsOver | packages/database/src/journal/journal.ts:236-240 | A request that gives up closes its reservation, unless that was failed meanwhile, can never write afterwards, and touches nobody else |
| ReadFence.SamePendingDecidesEquality | packages/api-server/src/read-admission.ts:182-187 | `samePending` holds exactly when the lists are equally long and name the same set; on lists without duplicates, exactly when the sets are equal |
| ReadFence.AcceptedListIsComplete | packages/api-server/src/read-admission.ts:188-204 | Asking for 1001 rows and accepting 1000 is exact: a list is accepted exactly when the gap has at most 1000 CIs, and is then the whole gap |
| ReadFence.AnswersAreNeverCut | packages/api-server/src/read-admission.ts:254-258 | In every run the answers are complete: T1's own cap keeps gaps within the limit, so the refusal of longer lists is only a safeguard |
| ReadFence.ListReadIsAtomic | packages/api-server/src/read-admission.ts:222-287 | In every interleaving, all queries of a returned list read, optimistic or fallback, saw one graph: that of a single moment of the call, without the pending and failed CIs of that moment |
| ReadFence.ResultIsOfOneMoment | packages/api-server/src/read-admission.ts:222-287 | Whatever the caller computes from its queries, it would have computed from that one graph |
| FenceProgress.SecondSnapshotDecides | packages/api-server/src/read-admission.ts:234-241 | After the second snapshot the read is answered exactly when epoch and pending set are the same and at most 1000 CIs are named; otherwise it enters the fallback exactly when a slot of two is free |
| FenceProgress.QuietReadAnswers | packages/api-server/src/read-admission.ts:231-237 | A read that nothing disturbs answers without the lock, from the graph without the pending and failed CIs |
| FenceProgress.LockedReadIsChecked | packages/api-server/src/read-admission.ts:253-267 | With the lock granted, query and recheck of the fallback go through and saw that graph |
| FenceProgress.CheckedReadIsReturned | packages/api-server/src/read-admission.ts:268-286 | A checked read is returned as it was read, with lock and slot given back |
| ReadFence.RunKeepsSlots | packages/api-server/src/read-admission.ts:239-286 | In every interleaving and on every exit the counter of an organization equals its readers in the fallback, is at most 2, and its key is absent exactly when it is 0 |
| ReadFence.WriteCommitsClear | packages/api-server/src/read-admission.ts:64-97 | A committed referenced write checked the gap and later committed, holding the shared lock at every moment in between, while none of its CIs was pending or failed |
| FenceProgress.GapCheckDecides | packages/api-server/src/read-admission.ts:78-82 | A write that holds its lock goes on exactly when none of its CIs is pending or failed |
| FenceProgress.QuietWriteCommits | packages/api-server/src/read-admission.ts:78-85 | An undisturbed write to CIs outside the gap commits, and gives the lock back |
| ListRead.AnsweredIffFenced | packages/api-server/src/read-admission.ts:231-269 | A result is returned exactly when the fence of the read that produced it held: equal epochs and pending sets, or the recheck under the lock; in the fallback every error but a gap becomes unavailability |
| ListRead.AnswersBeforeFallback | packages/api-server/src/read-admission.ts:188-241 | A snapshot that fails or names more than 1000 CIs, and a missing slot, are unavailability; the read's own error is returned unchanged; the same epoch and pending set return its result |
| ListRead.AnswersOfFallback | packages/api-server/src/read-admission.ts:242-281 | In the fallback the answer is a gap exactly when the first step to fail did so with a gap, unavailability exactly when it failed otherwise, a list too long or changed included, and the result exactly when none fails |
| ListRead.ListReader.ReadCIList | packages/api-server/src/read-admission.ts:222-287 | The whole call: its answer by the order of its statements, the slot counter restored on every exit, at most one fallback and one connection |
| LockTurns.GrantIffPredecessorsReleased | packages/api-server/src/read-admission.ts:45-62 | A waiter can be granted exactly when all its predecessors are released: nobody overtakes, and no wake-up is lost, however many waiters expired in between |
| LockTurns.QueueIsSafe | packages/api-server/src/read-admission.ts:43-62 | In every run a ticket holds a turn only after all earlier ones of its organization were released, the map entry is absent only when all are released, and is absent once all of them are and their callbacks ran |
| LockTurns.ReleasedTurnsSettle | packages/api-server/src/read-admission.ts:51-54 | Once all tickets of an organization are released, each clean-up callback can run |
| WriteQueue.OneWriteWaitsForTheLock | packages/api-server/src/read-admission.ts:38-42 | In every run, per organization and process at most one referenced write keeps a pooled connection waiting for the admission lock; every earlier write has its lock or is over, and no later one holds a turn or a connection |
| WriteQueue.TheHeadCanMove | packages/api-server/src/read-admission.ts:45-77 | The queue never stalls: the first write that has not released its turn holds it, or can be granted it |
| WriteQueue.TheHeadGetsItsLock | packages/api-server/src/read-admission.ts:55-77 | Three steps of its own take the first such write to its lock, and move no other |
| WriteQueue.TheQueueDrains | packages/api-server/src/read-admission.ts:45-77 | From every reachable state some continuation without an expiry gives every waiting write its lock, in order of arrival, until all turns are released |
| LockTurns.Turns.Enter | packages/api-server/src/read-admission.ts:45-50 | Joining the chain in place: the new ticket follows the last one of its organization and becomes the tail |
| LockTurns.Turns.Race | packages/api-server/src/read-admission.ts:55-61 | The race against the deadline: a granted ticket has no unreleased predecessor, a late one releases itself |
| LockTurns.Turns.ReleaseTurn | packages/api-server/src/read-admission.ts:51-54 | Release in place; releasing again changes nothing |
| LockTurns.Turns.Cleanup | packages/api-server/src/read-admission.ts:53 | The callback of a resolved turn removes the map entry only if it is still its own |
| ReferencedWrite.Transaction | packages/api-server/src/read-admission.ts:73-86 | The caller's write starts only with the lock granted, the turn released and no gap found; the first failure is the one reported; the server commits exactly when everything before succeeds, no statement of the write failed unnoticed, and COMMIT is carried out, whether or not its answer arrives |
| ReferencedWrite.AnswersInOrder | packages/api-server/src/read-admission.ts:69-92 | Errors of connecting and of BEGIN are returned as they are; then the first step to fail decides, a lock timeout and only that as unavailability, any other error as it is |
| ReferencedWrite.WriteReferencedCIs | packages/api-server/src/read-admission.ts:64-97 | On every exit the turn is released and a checked-out connection is given back exactly once; it stays inside a transaction in the pool exactly when a BEGIN that failed for the caller was carried out; success is reported for a write that is not committed exactly when the write hid the failure of one of its statements, and failure for a committed one exactly when the answer to its COMMIT was lost; a lock timeout is reported as unavailable |
| GlobalPage.FilterGlobalCIGaps | packages/api-server/src/read-admission.ts:123-146 | The filter in chunks of 1000 keeps what one statement over all rows would keep |
| GlobalPage.NoGapSurvives | packages/api-server/src/read-admission.ts:123-146 | Whatever the rows look like, no row of a pending or failed CI survives, and nothing is added |
| GlobalPage.CaseDoesNotMatter | packages/api-server/src/read-admission.ts:126-145 | Two rows whose organizations differ only in letter case name the same gap and share a key |
| GlobalPage.UuidIff | packages/api-server/src/read-admission.ts:126 | An organization the journal is asked about is five groups of hexadecimal digits, 8-4-4-4-12 |
| GlobalPage.FilterIsExactIff | packages/api-server/src/read-admission.ts:123-146 | For given rows and gaps, exactly the rows of the gap are dropped if and only if no row of the gap shadows another: a row the journal is not asked about that has the same key |
| GlobalPage.FilterIsAlwaysExactIff | packages/api-server/src/read-admission.ts:123-146 | Whatever the journal holds, exactly the rows of the gap are dropped if and only if no row shadows another |
| GlobalPage.ShadowsIff | packages/api-server/src/read-admission.ts:129-145 | There are two ways to be shadowed and no other: an id that is not a string but has the text of the string id, or an organization that goes on behind the UUID and a colon with what the id lacks |
| GlobalPage.NumericIdIsShadowed | packages/api-server/src/read-admission.ts:144-145 | The first way occurs for every organization and id, in any list with both rows: a row that no operation names is dropped, and alone it is not |
| GlobalPage.LongOrganizationIsShadowed | packages/api-server/src/read-admission.ts:144-145 | So does the second |
| GlobalPage.FilterOwnedDimensionRows | packages/api-server/src/read-admission.ts:102-121 | The ownership filter in chunks of 1000 keeps exactly the rows whose CI the graph shows as owned, in order |
| GlobalPage.ReadGlobalCIPage | packages/api-server/src/read-admission.ts:152-177 | When the deadline checks and queries it can reach pass, the page loop returns all survivors of the whole list, in order, exactly when the list has at most 1999 rows and at most 100 survive, and otherwise refuses; the only other outcome is the error of the first of these that failed, and an answer means none did |
| GlobalPage.PlainPagesAreExact | packages/api-server/src/read-admission.ts:162-175 | For plain rows, filtering page by page and joining the pages is filtering the whole list at once |
| Framing.ActiveTextIsInjective | packages/ai-discovery/src/pattern-matcher.ts:49-58 | Equal hashed texts come from equal pattern sequences: the same ids, versions and plan bodies in the same order |
| PatternMatcher.CacheKeyIsInjective | packages/ai-discovery/src/pattern-matcher.ts:60-63 | One cache key belongs to one active sequence and one scan, unless two of the texts hashed for them share a digest |
| PatternMatcher.DigestsNeedNotCollide | packages/ai-discovery/src/pattern-matcher.ts:49-63 | For any texts, up to 55295 of them, there are digests of 64 characters under which none share one, so the exception is not always taken |
| PatternMatcher.BestMatch | packages/ai-discovery/src/pattern-matcher.ts:95-120 | The loop finds the first match of the highest confidence, or none when nothing matches |
| PatternMatcher.BestReports | packages/ai-discovery/src/pattern-matcher.ts:102-120 | The answer is none exactly when nothing matches, and otherwise names id and version of the first pattern of the highest confidence, with what its detection found and the hash of the active set |
| PatternMatcher.RefusedIff | packages/ai-discovery/src/pattern-matcher.ts:74-78 | One plan body of one active pattern that does not parse is enough to refuse |
| PatternMatcher.CacheRefinesMatching | packages/ai-discovery/src/pattern-matcher.ts:68-144 | Over any run of library changes, lost entries and matches, a match is refused exactly when an active plan body does not parse, and otherwise its answer, a cached null included, is the direct one for the patterns active at that moment, unless two different texts hashed in the run so far share a digest |
| PatternMatcher.ChangesAreSeen | packages/ai-discovery/src/pattern-matcher.ts:68-144 | A match after a change of the library is about the changed library, not yet cached answers being the direct ones |
| PatternMatcher.Matcher.MatchScan | packages/ai-discovery/src/pattern-matcher.ts:68-144 | `match` on the object: the patterns just read replace the snapshot, a failed read changes nothing, a cached answer is used exactly when there is one and Redis gives it, never hides a plan that does not parse, and is the direct answer unless texts hashed so far share a digest; any other answer is stored unless Redis refuses |
| PatternMatcher.Matcher.ExecuteGuard | packages/ai-discovery/src/pattern-matcher.ts:150-170 | The guard lets a pattern run exactly when the state could be read, the expected hash, if given, is that of the patterns just read, and the first pattern with the id parses |
| PatternMatcher.FirstWithIdIff | packages/ai-discovery/src/pattern-matcher.ts:164-165 | A pattern is found exactly when its id is among the active ones, none before it has that id, and with distinct ids it is the only one |
| PatternMatcher.ExecutionRunsTheMatchedPlan | packages/ai-discovery/src/pattern-matcher.ts:159-165 | A guarded execution runs only if the active sequence is the one matched against, and then runs the plan that matched, unless the texts of the two sequences share a digest |
| DetectionPlan.DetectWithPlan | packages/ai-discovery/src/pattern-plan.ts:62-95 | For every rounding that keeps the order, is idempotent and leaves 0, 1/4, 7/16, 1/2 and 1 alone, as binary64 does: the plan matches exactly when a known endpoint is hit or at least two indicators are present, and the confidence is the capped rounded sum, in 0 to 1 and zero exactly without indicators |
| DetectionPlan.IndicatorsAre | packages/ai-discovery/src/pattern-plan.ts:66-93 | The indicators are the port, if a service runs on one of the plan, the headers, the endpoint, if a known one was seen, and the service names, in this order |
| DetectionPlan.HeaderIndicatorsAre | packages/ai-discovery/src/pattern-plan.ts:72-81 | A header of the plan counts exactly when its text up to the first colon, as given or in lower case, is a header key of the scan, and is named by that text |
| DetectionPlan.NameIndicatorsAre | packages/ai-discovery/src/pattern-plan.ts:87-93 | A service name of the plan counts exactly when its lower-case text occurs in that of the first service |
| DetectionPlan.NoServiceNoName | packages/ai-discovery/src/pattern-plan.ts:87-89 | Without a service text no name counts that has a text of its own |
| DetectionPlan.ExactConfidence | packages/ai-discovery/src/pattern-plan.ts:68-93 | In exact arithmetic a port gives three tenths, a header four, the endpoint five, a name three |
| DetectionPlan.MoreIsNeverLess | packages/ai-discovery/src/pattern-plan.ts:62-95 | In all those roundings a scan that shows more never loses confidence or the match |
| PatternLifecycle.LookupKeepsInv | packages/ai-discovery/src/pattern-storage.ts:131-172 | In a consistent state a lookup through memory, Redis and database answers the committed row and keeps all copies equal to it |
| PatternAnswers.LookupAnswers | packages/ai-discovery/src/pattern-storage.ts:131-172 | In any state: the row found is that of memory, else of Redis, else of the database, the copies it leaves are those, and only a database that is asked and fails is an error |
| PatternAnswers.LoadAnswers | packages/ai-discovery/src/pattern-storage.ts:75-125 | In any state: loading is an error exactly when the database is asked and fails, and then changes nothing; otherwise it answers the Redis list or the rows of the query, memory holds exactly those, each under its id, and the rows of the query become the Redis list unless Redis refuses |
| PatternAnswers.StatusTellsThePast | packages/ai-discovery/src/pattern-workflow.ts:36-317 | A legal history ends as its status says: an approved pattern was submitted and approved, an active one then activated, a deprecated one then deactivated, with nothing in between |
| PatternAnswers.EveryLegalHistoryRuns | packages/ai-discovery/src/pattern-workflow.ts:36-317 | The converse of RunKeepsInv: a draft whose plans parse and whose tests pass can be taken through every legal history, and then has that history and the status it says |
| PatternAnswers.AdvanceAnswers | packages/ai-discovery/src/pattern-workflow.ts:36-317 | Which of the six answers a workflow call gives, each exactly |
| PatternAnswers.AdvanceEffects | packages/ai-discovery/src/pattern-workflow.ts:36-317 | A successful call changes status, activity and approver of one row as its action says, adds one entry to its history, and drops the copies that were not refused |
| PatternAnswers.AutoApproveAnswers | packages/ai-discovery/src/pattern-workflow.ts:324-378 | Automatic approval succeeds exactly for a row found under review with 5 sessions, confidence 0.9 and parseable plans whose transaction succeeds |
| PatternAnswers.SaveAnswers | packages/ai-discovery/src/pattern-storage.ts:189-244 | Saving inserts exactly the row with an empty history, unless the gate, the transaction or an existing row refuses, and leaves the copies stated |
| PatternAnswers.DeleteAnswers | packages/ai-discovery/src/pattern-storage.ts:656-680 | Deleting removes exactly the row, its history and its copies, and says whether there was one |
| PatternLifecycle.CoherentIffInvalidated | packages/ai-discovery/src/pattern-storage.ts:487-514 | After a committed transition the caches agree with the database if and only if the stale entry and the stale list were deleted, or there was nothing stale to delete |
| PatternLifecycle.TransitionKeepsRowsIff | packages/ai-discovery/src/pattern-storage.ts:487-514 | Rows and audit trail survive a committed transition if and only if the committed row has the expected status and, when submitted, parses |
| PatternLifecycle.AdvanceKeepsRowsIff | packages/ai-discovery/src/pattern-workflow.ts:36-317 | Whatever the caches hold, a workflow call breaks rows and audit trail if and only if the copy it finds lets it go on to a transaction that succeeds while the committed row does not allow the action |
| PatternLifecycle.AdvanceKeepsInv | packages/ai-discovery/src/pattern-workflow.ts:36-317 | So for a whole workflow call, and a closed gate answers so and changes nothing, cached copies included |
| PatternLifecycle.AutoApproveKeepsInv | packages/ai-discovery/src/pattern-workflow.ts:324-378 | Automatic approval happens only to a pattern under review with at least 5 sessions, confidence 0.9 and parseable plans, and otherwise changes no row |
| PatternLifecycle.LoadKeepsInv | packages/ai-discovery/src/pattern-storage.ts:75-125 | Loading the active patterns, from the Redis list or the database, answers exactly the active rows and keeps the caches equal to them |
| PatternLifecycle.RunKeepsInv | packages/ai-discovery/src/pattern-workflow.ts:36-378 | After every run in which Redis deletes what it is told to, whatever else fails, expires or restarts: status is the replay of the history, active means active, plans past draft parse, the approver is that of the latest approval, and each cached copy is absent or equal to the committed row |
| PatternLifecycle.ClosedGateChangesNothing | packages/ai-discovery/src/pattern-storage.ts:24-26 | With the shipped gate no mutator changes anything |
| PatternLifecycle.LostDeletionLeavesActiveDraft | packages/ai-discovery/src/pattern-cache.service.ts:88-98 | Without the deletions the lifecycle breaks: an outage over an approval and an activation leaves a stale copy, and a later rejection makes the pattern a draft that is still active |
| PatternStorage.Storage.GetPattern | packages/ai-discovery/src/pattern-storage.ts:131-172 | The object over database, memory and Redis does what the lifecycle lookup does, in the answer and in all three stores |
| PatternStorage.Storage.LoadPatterns | packages/ai-discovery/src/pattern-storage.ts:75-125 | So does loading, which replaces the memory map |
| PatternStorage.Storage.TransitionPattern | packages/ai-discovery/src/pattern-storage.ts:487-514 | So does the transactional transition |
| PatternStorage.Storage.SavePattern | packages/ai-discovery/src/pattern-storage.ts:189-244 | So does saving |
| PatternStorage.Storage.DeletePattern | packages/ai-discovery/src/pattern-storage.ts:656-680 | So does deleting |
| PatternStorage.Workflow.Perform | packages/ai-discovery/src/pattern-workflow.ts:36-317 | The workflow methods do what the lifecycle step does and keep the invariant of a consistent state |
| PatternStorage.Workflow.AutoApproveIfEligible | packages/ai-discovery/src/pattern-workflow.ts:324-378 | So does automatic approval |
| CacheCodec.Prepare | packages/framework-integration/src/unified-service-interface.ts:58-82 | The prepared form holds no Date, Map or Set at any level |
| CacheCodec.TagShapedIff | packages/framework-integration/src/unified-service-interface.ts:94-107 | The tag-shaped objects are those with `Date` under `__cacheType` and a text under `value`, or `Map` or `Set` and a list |
| CacheCodec.RoundTripIffClean | packages/framework-integration/src/unified-service-interface.ts:89-115 | Reviving the parsed text of the prepared value gives the value back if and only if no object inside is tag-shaped, no member is named `__proto__` and nothing inside is undefined or a number JSON cannot write |
| ServiceView.KeyIsInjective | packages/framework-integration/src/unified-service-interface.ts:168 | A cache key belongs to one organization and one service |
| ServiceView.ViewService.GetCompleteServiceView | packages/framework-integration/src/unified-service-interface.ts:155-211 | A foreign id is refused whatever the cache holds; a hit is the revived view fetched for this organization and service, equal to it when clean; a miss stores the view under its own key only |
| RequestShape.ShapeIffNodes | packages/api-server/src/journal-http.ts:36-58 | The recursive limits hold exactly when every node at every path respects depth, entry count, key length, storable strings and member bytes |
| RequestShape.StorableIff | packages/database/src/journal/encoding.ts:16-20 | A text is storable exactly when no unit is 0 and every surrogate is paired |
| JsonReader.PrintReadsBack | packages/api-server/src/journal-http.ts:38 | The text that is measured stands for the value: a strict reader of JSON in UTF-8, by RFC 8259 and RFC 3629, gives the value back, for all values whose number texts are numbers |
| JsonReader.PrintIsShortest | packages/api-server/src/journal-http.ts:38 | And it is the compact text: no text that reads as the value has fewer bytes |
| RequestShape.AssertRequestShape | packages/api-server/src/journal-http.ts:36-58 | The one pass accepts exactly the values within the limits, and its number is exactly the byte length of the compact UTF-8 text |
| RequestShape.CheckRequest | packages/api-server/src/journal-http.ts:95 | The guard accepts exactly the requests within all limits, 1048576 bytes included |
| RequestShape.NoReservedMembers | packages/api-server/src/journal-http.ts:65-73 | The check passes exactly when no member at any depth has a reserved normalised name |
| RequestShape.ReservedIff | packages/api-server/src/journal-http.ts:29-33 | A name is reserved exactly when it is one of five names behind any number of underscores and in any case |
| Csv.ReadsBackIffPlain | web-ui/src/services/analytics.service.ts:314-335 | The export parses back to the headers and every cell if and only if there is a header and no header holds a comma, a quote or a line break; cells may hold anything |
| Csv.RecordsAreRows | web-ui/src/services/analytics.service.ts:324-331 | Field j of record i is the value of header j in row i, or `undefined` where the row has none |
| Csv.LineLength | web-ui/src/services/analytics.service.ts:324-330 | Every cell is quoted, whether it needs it or not, and nothing else is added |
| Csv.ConvertToCSV | web-ui/src/services/analytics.service.ts:314-335 | The export is empty for no data, and otherwise the text with that property |
| RollingHash.HashString | packages/ai-discovery/src/pattern-analyzer.ts:503-511 | The loop yields the absolute signed 32-bit residue of the base-31 polynomial of the code units, and at every turn all whole numbers before conversion stay below 2 to the 53 |
| RollingHash.HashRange | packages/ai-discovery/src/pattern-analyzer.ts:510 | The absolute value lies in 0 to 2 to the 31, and the top value does occur |
| RollingHash.HexadecimalIs | packages/ai-discovery/src/pattern-analyzer.ts:510 | The printed hash is the lower-case hexadecimal text of the number |
| RollingHash.SameHashIff | packages/ai-discovery/src/pattern-analyzer.ts:503-511 | Two texts share a hash exactly when their polynomials are equal or opposite modulo 2 to the 32 |
| RollingHash.TradedUnitsCollide | packages/ai-discovery/src/pattern-analyzer.ts:503-511 | Two neighbouring units can always be traded for others, so collisions occur in texts of every length from two |
| SessionSignature.SignatureTextIff | packages/ai-discovery/src/pattern-analyzer.ts:168-174 | Two hashed texts are equal exactly when the tool sequences and the multisets of indicators are equal |
| SignatureText.TextIsPrinted | packages/ai-discovery/src/pattern-analyzer.ts:168-174 | In UTF-8 the hashed text is the compact JSON text of the object of tools and indicators |
| SignatureText.TextReadsBack | packages/ai-discovery/src/pattern-analyzer.ts:168-174 | And a JSON reader finds exactly them in it |
| SignatureText.HashIsOfContent | packages/ai-discovery/src/pattern-analyzer.ts:168-183 | The hash of a signature is that of the JSON text of its own tools and indicators |
| SignatureContent.AtMostIff | packages/ai-discovery/src/pattern-analyzer.ts:171 | The order of the sort: a beginning comes first, and otherwise the first different code unit decides |
| SignatureContent.PortsAreCounted | packages/ai-discovery/src/pattern-analyzer.ts:144-147 | A port is among the indicators exactly as often as outputs of successful calls list it |
| SignatureContent.EndpointsAreCounted | packages/ai-discovery/src/pattern-analyzer.ts:150-154 | So is an endpoint |
| SignatureContent.ServicesAreCounted | packages/ai-discovery/src/pattern-analyzer.ts:157-165 | So is a service name that is not empty |
| SignatureContent.HeadersAreCounted | packages/ai-discovery/src/pattern-analyzer.ts:131-141 | So is each of the three tracked headers, in whatever case |
| SignatureContent.IndicatorsAreOfFourKinds | packages/ai-discovery/src/pattern-analyzer.ts:122-166 | Nothing else is among the indicators |
| SignatureContent.ToolsAreNames | packages/ai-discovery/src/pattern-analyzer.ts:117-119 | The tool sequence is the names of the successful calls, in order |
| SignatureContent.SignatureIffContent | packages/ai-discovery/src/pattern-analyzer.ts:115-184 | Sessions have equal signatures exactly when their successful calls name the same tools in order and list the same ports, endpoints, service names and tracked headers, each as often |
| SessionSignature.GenerateSignature | packages/ai-discovery/src/pattern-analyzer.ts:115-184 | The collecting loops, the sort and the hash yield the signature defined by the tools and indicators of the successful calls |
| SessionSignature.SignatureIsCanonical | packages/ai-discovery/src/pattern-analyzer.ts:115-184 | Two sessions have equal signatures exactly when their tool sequences and indicator multisets are equal |
| SessionSignature.ListingOrderIsIrrelevant | packages/ai-discovery/src/pattern-analyzer.ts:125-167 | The order in which outputs list headers, ports, endpoints and services never reaches the signature |
| SessionSignature.CallOrderIsIrrelevant | packages/ai-discovery/src/pattern-analyzer.ts:117-119 | The order of the calls reaches it only through the sequence of successful tools |
| SessionSimilarity.CalculateSequenceSimilarity | packages/ai-discovery/src/pattern-analyzer.ts:270-282 | The measure lies in 0 to 1 and is 1 exactly on equal sequences |
| SessionSimilarity.SequenceLaws | packages/ai-discovery/src/pattern-analyzer.ts:270-282 | It is symmetric as well |
| SessionSimilarity.SetLaws | packages/ai-discovery/src/pattern-analyzer.ts:287-298 | The set measure lies in 0 to 1, is 1 exactly on equal sets and 0 exactly on disjoint ones, and is symmetric |
| SessionSimilarity.SimilarityIsReflexiveAndSymmetric | packages/ai-discovery/src/pattern-analyzer.ts:243-265 | Similarity of signatures is reflexive and symmetric |
| SessionSimilarity.SimilarIff | packages/ai-discovery/src/pattern-analyzer.ts:243-265 | Signatures are similar exactly when the hashes agree, or ten times the agreeing places reach seven times the longer sequence and twice the intersection reaches the union, empty sides included |
| SessionSimilarity.UnlikeSessionsCanBeSimilar | packages/ai-discovery/src/pattern-analyzer.ts:248-250 | The converse fails: replacing a first tool `Aa` by `BB` never changes the hash, so sessions without a common tool can be similar |
| CommonElements.CommonIsExact | packages/ai-discovery/src/pattern-analyzer.ts:356-360 | The common elements are exactly those that reach half of the sessions, each once, in the order of first occurrence |
| CommonElements.CommonIsBounded | packages/ai-discovery/src/pattern-analyzer.ts:346-432 | The pigeonhole bound for any such list: common elements times sessions is at most twice the items |
| CommonElements.AtMostTwo | packages/ai-discovery/src/pattern-analyzer.ts:346-361 | With one item per session at most two are common; two share the sessions evenly and leave none for a third |
| CommonElements.ExtractCommonPorts | packages/ai-discovery/src/pattern-analyzer.ts:346-361 | The common ports are exactly those of at least half of the sessions, and at most two |
| CommonElements.ListingsAreHoldersIff | packages/ai-discovery/src/pattern-analyzer.ts:369-376 | A name is listed at least as often as there are sessions that hold it, and exactly as often if and only if no session repeats it |
| CommonElements.ReportedIffHeldIff | packages/ai-discovery/src/pattern-analyzer.ts:366-432 | A name is reported exactly when half of the sessions hold it, if and only if its listings do not reach half of the sessions where its holders fail to; so whenever no session repeats it |
| CommonElements.ExtractCommonNames | packages/ai-discovery/src/pattern-analyzer.ts:366-432 | The common headers, endpoints and service names are exactly those listed at least half as often as there are sessions, each once, and exactly those held by half of the sessions among the names no session repeats |
| CommonElements.OneSessionCanDecide | packages/ai-discovery/src/pattern-analyzer.ts:369-376 | One session that repeats a name often enough makes it common to all |
| DescriptorMapper.MapConfigField | packages/integration-framework/src/descriptor-mapper.ts:395-440 | A field is mapped with all its parts or reported under its path, and an unsupported default is reported beside the mapped field |
| DescriptorFields.FieldTypeIff | packages/integration-framework/src/descriptor-mapper.ts:442-462 | A choice wins over the declared type; seven declared types have a field type, each its own; no other has |
| DescriptorFields.FieldSays | packages/integration-framework/src/descriptor-mapper.ts:395-440 | Key, label, requirement, hint, placeholder, options and default of a mapped field, and what is reported beside it or in its place |
| DescriptorFields.SchemaFieldsAre | packages/integration-framework/src/descriptor-mapper.ts:370-393 | The fields of a schema are its entries that are not skipped and have a type, in order, required if listed so |
| DescriptorFields.ExplicitFieldsAre | packages/integration-framework/src/descriptor-mapper.ts:316-344 | The explicit credentials are the fields with a key and a type, in order, under key, label and requirement of their own |
| DescriptorFields.KeylessAreReported | packages/integration-framework/src/descriptor-mapper.ts:321-328 | Each field without a key is reported as such |
| DescriptorMapper.MapFieldMappings | packages/integration-framework/src/descriptor-mapper.ts:211-231 | Text mappings are kept, others reported under their path, in order; nothing is kept when there is no object or no text |
| DescriptorMapper.NoAuthIff | packages/integration-framework/src/descriptor-mapper.ts:293-314 | No authentication is inferred exactly when there are no credential fields and it was declined or no method is a recognised one |
| DescriptorFields.KindIff | packages/integration-framework/src/descriptor-mapper.ts:293-314 | Which of the other kinds is inferred, each exactly: the first of the four families of methods that is named, or else by the number of fields |
| DescriptorFields.KindIsInferred | packages/integration-framework/src/descriptor-mapper.ts:263-270 | It is inferred from the methods given, or the type in their place, in lower case, and from the fields of the substrate |
| DescriptorFields.CredentialsAre | packages/integration-framework/src/descriptor-mapper.ts:245-268 | The fields are those given, as soon as one of them can be mapped, and otherwise the credential-like properties of the configuration, in order |
| DescriptorMapper.AuthFits | packages/integration-framework/src/descriptor-mapper.ts:245-291 | Kind, provider and fields fit: no authentication means no fields, a token has at most one, an OAuth kind always names a provider, and one that is not given is the first method |
| DescriptorMapper.MapAuthSubstrate | packages/integration-framework/src/descriptor-mapper.ts:245-291 | Implicit credentials are taken exactly when no explicit one was mapped; kind, provider, scopes and the omitted keys follow from the fields and the methods |
| DescriptorMapper.MapConnectorResource | packages/integration-framework/src/descriptor-mapper.ts:138-202 | Operations, field mappings and configuration of a resource, with their reports in order |
| DescriptorMapper.MapConnectorMetadata | packages/integration-framework/src/descriptor-mapper.ts:97-136 | The authentication, configuration and resource parts of the descriptor, and the whole report in order |
| DescriptorMapper.PropertyIsConserved | packages/integration-framework/src/descriptor-mapper.ts:97-136 | Every configuration property is exactly one of: the key of a credential, exactly one config field, or reported under its path, once or, for a credential-like key taken implicitly, twice |
| DescriptorMapper.FieldsComeFromEntries | packages/integration-framework/src/descriptor-mapper.ts:370-393 | No field is invented: it comes from an entry that was not skipped and says what the entry says |
| DescriptorMapper.CredentialsAreNotConfiguration | packages/integration-framework/src/descriptor-mapper.ts:113-119 | No key is both a credential and a configuration field |
| DescriptorMapper.OperationsAreConserved | packages/integration-framework/src/descriptor-mapper.ts:143-152 | Mapped and reported operations keep their order and together are the operations given |
| DescriptorFields.ResourcesKeep | packages/integration-framework/src/descriptor-mapper.ts:143-152 | The operations kept are the four of the core, and the mappings kept the texts but for one key |
| DescriptorFields.ResourceReportsAre | packages/integration-framework/src/descriptor-mapper.ts:138-202 | What a resource is reported for: each operation outside the core, each mapping to something else than a text, and what its properties are reported for, under their paths |
| DescriptorMapper.MappingsAreConservedIff | packages/integration-framework/src/descriptor-mapper.ts:211-231 | Kept and reported field mappings are all there is if and only if no text is mapped under `__proto__` |

## Left out

- Journal.StepIsHidden: that a W statement names only CIs of its group comes from the callers that plan it; the journal itself does not check it (T1b).
- ReadFence.ListReadIsAtomic: speaks about the journal's writers only; graph writes outside the journal (ETL loaders, discovery, merge jobs) are not part of this model.
- ReadFence.WriteCommitsClear: a gap found by the check, a failed statement and an expired deadline are one refusing step; which of them is reported, and that the gap error comes exactly from a gap, is stated by ReferencedWrite instead.
- WriteQueue.OneWriteWaitsForTheLock: one process; that a deadline eventually fires, and fairness of PostgreSQL's lock queue, are not stated.
- ListRead.ListReader.ReadCIList: one call without concurrent ones, which ReadFence.RunKeepsSlots covers; the listener on the connection is a parameter.
- ReferencedWrite.WriteReferencedCIs: one call with its own connection; a write function that itself ends the transaction is not modelled. Its BEGIN carries no query timeout, so one that fails and is carried out takes a lost connection, which the pool drops; keeping that case over-approximates.
- GlobalPage.ReadGlobalCIPage: the list and the gaps stay the same during the call, as the paging itself assumes.
- GlobalPage.FilterIsExactIff: lower-casing is that of ASCII; an organization with other letters behind its UUID is lower-cased otherwise by the code.
- GlobalPage.FilterOwnedDimensionRows: rows are represented by their CI id.
- PatternMatcher.CacheRefinesMatching: nothing is assumed of SHA-256 but the length of its digests, and a collision among the texts of a run is the stated exception; texts are well-formed Unicode, scans are given by their JSON text, and cached answers are kept as values rather than as JSON.
- DetectionPlan.DetectWithPlan: of binary64 only the listed properties of rounding are used, so which of two equal-looking sums is larger is not derived; confidence is opaque in PatternMatcher. Lower-casing is a parameter.
- PatternLifecycle.RunKeepsInv: runs start from drafts and use the workflow, saving of inactive drafts, deletion, lookups and loads; `updatePattern`, `recordReviewAction` and saving other statuses can set anything and are not in the runs. Operations run one after another in one process; a second process can write back a stale list.
- PatternStorage.Workflow.Perform: the five workflow methods share one shape and are one method with the action as parameter; rejection comments and messages are not distinguished.
- PatternStorage.Storage.GetPattern: rows are values in every store; dates, which JSON turns into strings in Redis, are not part of a row here.
- RequestShape.AssertRequestShape: numbers are given by their printed text; `undefined`, functions and BigInt do not occur in parsed bodies.
- Csv.ConvertToCSV: cell values are given by their `String(...)` text; the header names are the keys of the first row.
- CacheCodec.RoundTripIffClean: values are trees; shared references, cycles, class instances and invalid dates are not modelled.
- ServiceView.ViewService.GetCompleteServiceView: Redis fails for a whole call or not at all, and expiry is a missing entry; the view is whatever the three frameworks return.
- SessionSignature.GenerateSignature: outputs have the declared shapes (names are texts, ports non-negative integers); the session id, count and confidence that a signature carries are copied fields.
- SessionSimilarity.SimilarIff: ratios are exact; quotients of list lengths below 2 to the 26 compare with 0.7 and 0.5 in binary floating point in the same way.
- CommonElements.ExtractCommonNames: the three extraction methods differ only in the prefix and are one method.
- DescriptorMapper.PropertyIsConserved: paths are lists of their parts; as dotted text, different parts can print the same. The path of a resource without id and name is not distinguished.
- DescriptorMapper.MapConnectorMetadata: category, icon, status, governance and the members of metadata and resources that are copied or defaulted are omitted, as is `assertDescriptor` of connector-core, which is not part of this model; key tests, default labels and lower-casing are parameters.
- `readSingleCI`: its two checks carry no epoch, so an operation that opens and closes between them is not seen, and no atomicity is claimed.
- `parseDetectionPlan` and `parseDiscoveryPlan`: only whether they accept matters here, as a parameter.
- `executeDiscovery`, telemetry, pattern usage, listing and review-history queries: networking and plain queries.
- `assertStorableProperties`, `assertCIId`, request routing and the mapping of errors to responses: branches without state.
- `suggestPatternName`, `suggestCategory`, service KPIs, alerts, health trends and the remaining frontend: formulas and texts.
- Wall-clock time: a deadline may fail at any check.
