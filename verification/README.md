# Verified models of the memory layer

This project models the parts of the memory layer that hold self-contained algorithms and step
protocols, and proves what they promise, for all inputs and over all runs. Databases, files and
remote services become maps, sequences and steps whose outcome is given in advance; a crash may
fall between any two statements. Each loop of the original is a method with invariants, proved
equal to a function on values, and the properties are proved of that function.

`dafny verify dfyconfig.toml` checks everything.

## Modules

| module | what it models |
|---|---|
| EditDistance | the Levenshtein table of the evidence aligner, against edit scripts |
| Text, Whitespace, PositionMap, EvidenceAligner | finding a quote in a message: exact, up to whitespace with positions carried back, and by the most similar window |
| RetrievalBenchmark | precision, recall and nDCG at k for arbitrary gains and discounts |
| MongoSync, MongoSyncWorker | push and pull through a shared collection: the protocol, and the loops as runs of it |
| VectorOutbox, VectorStore | the job table that feeds the vector index, and the upsert that retries on commit conflicts |
| EventGroups, Consolidation | grouping the working set, and the memories with their event index |
| JudgeRun | the judge that appends and checkpoints, under crashes, failures, resumes and forced restarts |
| BatchRun | the two-phase batch that reads every question and then judges every reading: fresh, resumed and forced runs over files that a write may leave torn |
| SessionQrels | benchmark queries and memories from interleaved session logs |
| DiverseSelect | round-robin choice over sessions |
| Graduation | promotion of memories through the levels |
| Telemetry | the throttled telemetry file |
| HybridRanking | fusing session and turn rankings, with completion and backfill |
| RetrievalFilters, RetrievalExpansion, Retriever | the retrieval pipeline: filters and tests, link and session expansion, stages and fallbacks |
| Common, Sorting, Statements | an option type, facts about sequences and maps, stable sorting, and statements that may fail or be the last |

## Where the code falls short of its description

Each of these is a lemma below: what the code does meet, and when.

- Pulling misses documents for good when a pull overtakes a push that has reserved its numbers and
  not yet written them (`MongoSync.OvertakenPushIsLost`, `MongoSync.NoisyFetchLosesADocument`,
  `MongoSync.RunKeepsLost`); it misses none while pulls do not overtake
  (`MongoSync.NoQuietRunMissesADocument`).
- The normalised match answers with the first span that reads like the quote exactly when, in the normal
  form of the source, no two whitespace characters stand side by side up to the end of the quote's
  first occurrence, or none up to its start while it ends the text
  (`EvidenceAligner.NormalizedAnswerIsFirstSpanIff`).  A form feed or a no-break space beside a space
  breaks that.  Then it finds nothing, or answers with other text at a confidence of 0.95
  (`EvidenceAligner.UnfollowableAnswerIsWrong`).  It always works where space, tab, carriage return and
  line feed are the only whitespace (`Whitespace.PlainTextsHaveNoAdjacentWhitespace`).
- The consolidation index can differ from the memories after all: creating skips blank event ids, the
  backfill on opening does not (`Consolidation.ReopenedIndexIsExactIff`). Checking and creating are
  separate steps (`Consolidation.LooksBeforeBothCreatesOverlap`).
- A judge run that stops between creating its output and its first checkpoint can be neither resumed
  nor started afresh without force (`JudgeRun.FreshRunGetsStuckIff`, `JudgeRun.StuckNeedsForce`).
- The batch overwrites its checkpoint in place, twice for each question.  A run that is stopped halfway in
  that write can no more be resumed than started afresh (`BatchRun.CutOffCheckpointEndsIt`), and so if
  the retrieval report is cut off (`BatchRun.CutOffReportEndsIt`); only force goes on, from nothing.  A
  forced run ignores files it cannot remove: old verdicts may stand beside new readings
  (`BatchRun.FailedRemovalKeepsOldVerdicts`).
- A report from a worker that was presumed stuck unbalances its job's books
  (`VectorOutbox.LateReportBreaksTheBooks`, `VectorOutbox.StaleReadIsSafeIff`). A retry limit of zero
  acts as one.
- A cooldown of zero lets one run raise an event through all levels (`Graduation.NoCooldownClimbs`).
- A fixture repeats an identifier exactly when a session called "no-match" has an answered turn in the
  range its no-match questions are numbered in (`SessionQrels.FixtureIdsDistinctIff`,
  `SessionQrels.FixtureRepeatsAnId`).
- Strict project mode with no project named restricts nothing (`RetrievalFilters.StrictNeedsAProject`).
- The comment on time proximity promises 0.5 for an average gap of 24 hours; the code gives 0
  (`EventGroups.ProximityFalls`).
- The telemetry file is at most an interval behind only while writes work: a failed write, the timer's
  own included, clears the dirty flag (`Telemetry.FailedWriteIsForgotten`).

## Model

| member | source | states |
|---|---|---|
| EditDistance.DistanceIsMinimal | src/core/evidence-aligner.ts:557-583 | a number is the least cost of an insert/delete/substitute script from one text to the other if and only if it is the value of the table recurrence |
| EditDistance.ScriptCostsAtLeastDistance | src/core/evidence-aligner.ts:569-578 | no edit script, of any shape, is cheaper than the recurrence says |
| EditDistance.CheapestScript | src/core/evidence-aligner.ts:569-578 | for every cell there is a script that costs exactly the cell, and the lemma hands it over |
| EditDistance.DistanceSymmetric | src/core/evidence-aligner.ts:557-583 | the distance does not depend on which text comes first |
| EditDistance.TriangleInequality | src/core/evidence-aligner.ts:557-583 | going through a third text is never shorter |
| EditDistance.DistanceBounds | src/core/evidence-aligner.ts:557-583 | at least the difference of the lengths, at most the longer length, zero only between equal texts |
| EditDistance.SimilarityRange | src/core/evidence-aligner.ts:557-583 | similarity is in [0, 1], is 1 exactly for equal texts, is symmetric, and is 0 when exactly one text is empty |
| EditDistance.SimilarityIsShareKept | src/core/evidence-aligner.ts:581-583 | of the longer length, the share that no cheapest script touches: whatever is the least cost of a script, similarity times the longer length is what is left of it |
| EditDistance.FillRow | src/core/evidence-aligner.ts:569-578 | the inner loop leaves a row of distances of prefixes and touches no other row |
| EditDistance.CalculateLevenshteinSimilarity | src/core/evidence-aligner.ts:557-583 | the in-place table yields the share of the longer text that a cheapest edit script leaves; it is in [0, 1], and 1 exactly for equal texts |
| Whitespace.PassesCollapse | src/core/evidence-aligner.ts:494-500 | the three replacements in sequence amount to turning every run of space, tab, carriage return and line feed into one space |
| Whitespace.NormalizeIsTrimmedCollapse | src/core/evidence-aligner.ts:494-500 | normalising is collapsing those runs and trimming the ends |
| Whitespace.CollapseRange | src/core/evidence-aligner.ts:494-500 | a range that opens with text collapses to the matching range of the collapsed whole |
| Whitespace.PlainTextsHaveNoAdjacentWhitespace | src/core/evidence-aligner.ts:494-500 | where space, tab, carriage return and line feed are the only whitespace, the normal form has no two whitespace characters side by side |
| PositionMap.BuildPositionMap | src/core/evidence-aligner.ts:511-540 | given the text's own normal form, the one-pass scan records a faithful origin for every normalised position if and only if the normal form has no two whitespace characters in a row, and comes up short otherwise |
| PositionMap.PositionsAreMapIff | src/core/evidence-aligner.ts:511-540 | the same of the positions the scan records, which always increase |
| PositionMap.OriginOfRange | src/core/evidence-aligner.ts:505-552 | between two recorded origins the original text normalises to exactly the normalised range |
| PositionMap.ScanEnds | src/core/evidence-aligner.ts:511-540 | at the end of the scan there are never more positions than normalised ones, as many exactly for texts the scan can follow, and then each is where its character comes from |
| PositionMap.MapToOriginalPositions | src/core/evidence-aligner.ts:505-552 | a range of the normal form that opens and closes with text comes back as the span of the original that normalises to it if and only if no two whitespace characters stand side by side up to its end, or none up to its start and it ends a text without trailing whitespace; every span returned lies inside the text |
| PositionMap.TextRangeMapsIff | src/core/evidence-aligner.ts:505-552 | the same of the recorded positions, range by range |
| PositionMap.RecordedPlace | src/core/evidence-aligner.ts:511-540 | every character that is not whitespace is recorded, never later than its place, and at its place exactly when no two whitespace characters stand side by side before it |
| PositionMap.EveryTextRangeMapsIff | src/core/evidence-aligner.ts:505-552 | every range that opens and closes with text comes back as the span it comes from if and only if the normal form has no two whitespace characters in a row |
| EvidenceAligner.SpanShowsInNormalized | src/core/evidence-aligner.ts:381-418 | whatever span of the source has text, its normal form occurs in the normalised source |
| EvidenceAligner.FirstOccurrenceIsFirstSpan | src/core/evidence-aligner.ts:386-405 | the first occurrence in normalised text maps back to the first span of the source that reads like the quote, whitespace aside |
| EvidenceAligner.OccursUpToWhitespaceIff | src/core/evidence-aligner.ts:386-391 | a quote occurs in the normalised source if and only if some span of the source reads like it, whitespace aside |
| EvidenceAligner.NormalizedAnswerIsFirstSpanIff | src/core/evidence-aligner.ts:381-418 | the answer is the first span that reads like the quote if and only if its first occurrence can be carried back, under the condition of PositionMap.TextRangeMapsIff |
| EvidenceAligner.UnfollowableAnswerIsWrong | src/core/evidence-aligner.ts:381-418 | for a source with a no-break space beside a space, a quote that reads like one part of it is answered with a span that reads otherwise, at confidence 0.95 |
| EvidenceAligner.SpacedQuoteReads | src/core/evidence-aligner.ts:353-376 | there is such a quote, and the exact stage does not find it |
| EvidenceAligner.TryNormalizedMatchV2 | src/core/evidence-aligner.ts:381-418 | no match is found where no span reads like the quote up to whitespace; where one does, the answer is the first such span exactly when its first occurrence can be carried back, always for sources the scan can follow; positions are always inside the source |
| EvidenceAligner.BestWindow | src/core/evidence-aligner.ts:435-459 | of all windows of the three sizes the scan returns the earliest among the most similar that reach the threshold, and none if and only if no window does |
| EvidenceAligner.BestIsUnique | src/core/evidence-aligner.ts:435-459 | this determines the window: earlier ones of the same similarity do not qualify |
| EvidenceAligner.TryFuzzyMatchV2 | src/core/evidence-aligner.ts:423-489 | the answer is the best window carried back by the recorded positions, with its similarity and a non-empty span inside the source; too short quotes and sources without a window at the threshold get none |
| EvidenceAligner.FuzzyAnswerIff | src/core/evidence-aligner.ts:461-489 | a best window is answered exactly when the scan records a position for its start |
| EvidenceAligner.TryExactMatchV2 | src/core/evidence-aligner.ts:353-376 | an exact match is found exactly when the quote occurs, at its first occurrence, with confidence 1 |
| EvidenceAligner.AlignSingleEvidence | src/core/evidence-aligner.ts:289-348 | which of the failures or the three methods answers, in their order, with what each promises; not found means that each of the three had to give no answer |
| EvidenceAligner.ConfidenceRange | src/core/evidence-aligner.ts:289-348 | every confidence given is in [0, 1] |
| EvidenceAligner.TotalsRange | src/core/evidence-aligner.ts:256-268 | the counter never exceeds the answers and the confidence total never exceeds the counter |
| EvidenceAligner.AlignV2 | src/core/evidence-aligner.ts:252-284 | one answer per quote in order, counters that add up, the missing-ratio verdict, and an overall confidence in [0, 1] |
| RetrievalBenchmark.DominatedPrefixes | src/core/retrieval-benchmark.ts:94-107 | a sequence whose every prefix sums to no more than another's stays behind under any positive non-increasing discount |
| RetrievalBenchmark.LargestGainMost | src/core/retrieval-benchmark.ts:104-105 | no selection of labels gains more than as many of the largest |
| RetrievalBenchmark.GainsOfFirstIds | src/core/retrieval-benchmark.ts:97-102 | skipping ids already seen sums the gain of each labelled id once |
| RetrievalBenchmark.PrefixDominated | src/core/retrieval-benchmark.ts:94-107 | the first ranks of any retrieved list, duplicates and strangers included, gain no more than the same number of ideal ranks |
| RetrievalBenchmark.DcgAtMostIdeal | src/core/retrieval-benchmark.ts:94-107 | the duplicate-skipping gain of at most k retrieved ids never exceeds the ideal gain at k |
| RetrievalBenchmark.NdcgInUnitInterval | src/core/retrieval-benchmark.ts:94-107 | nDCG at k is in [0, 1] for every list, labelling and k |
| RetrievalBenchmark.IdealRankingScoresOne | src/core/retrieval-benchmark.ts:104-106 | the bound is attained: a list in ideal order scores 1, or 0 when nothing is relevant |
| RetrievalBenchmark.NormalizeRelevance | src/core/retrieval-benchmark.ts:85-92 | each expected id gets one label: 1 if missing, 0 if negative or not finite |
| RetrievalBenchmark.NormalizeKs | src/core/retrieval-benchmark.ts:71-83 | the cut-offs are floored at 0, distinct, ascending, and no others |
| RetrievalBenchmark.ComputeDcg | src/core/retrieval-benchmark.ts:97-102 | the reduction with its growing set computes the duplicate-skipping discounted gain |
| RetrievalBenchmark.ComputeIdealDcg | src/core/retrieval-benchmark.ts:104-105 | the reduction over the sorted and cut labels computes the ideal gain |
| RetrievalBenchmark.ComputeNdcgAtK | src/core/retrieval-benchmark.ts:94-107 | the computed score times the ideal gain is the gain, and it lies in [0, 1] |
| RetrievalBenchmark.HitsBounded | src/core/retrieval-benchmark.ts:38-46 | hits at k are at most k and at most the distinct expected ids, and never fewer for a larger k |
| RetrievalBenchmark.MetricsGrowWithK | src/core/retrieval-benchmark.ts:38-46 | hits and recall do not fall as k grows |
| RetrievalBenchmark.ComputePrecisionRecallAtK | src/core/retrieval-benchmark.ts:28-51 | one entry for each normalised cut-off: the hits are as many as there are places below it where an expected id is retrieved for the first time, precision and recall are their share of k and of the expected ids, and nDCG is that of the first k |
| RetrievalBenchmark.HitsByPlaces | src/core/retrieval-benchmark.ts:39-42 | the hits at k are counted by the places below k that hold an expected id not retrieved before |
| RetrievalBenchmark.MetricsDependOnFirst | src/core/retrieval-benchmark.ts:38-46 | two retrieved lists that agree on their first k places have the same hits, precision, recall and nDCG at k |
| MongoSync.InitialInv | src/core/mongo-sync-worker.ts:275-380 | the invariant holds before the first sync |
| MongoSync.StepKeepsInv | src/core/mongo-sync-worker.ts:283-334 | every action of every instance keeps it, crashes between any two statements included: numbers unique and at most the counter, one unchanged document per event id, every row behind a push cursor sent unless its batch passed over it, quarantined, when it was read |
| MongoSync.RunKeepsInv | src/core/mongo-sync-worker.ts:283-377 | the same over every interleaving of instances, and documents are only ever added |
| MongoSync.CursorsAdvance | src/core/mongo-sync-worker.ts:324-376 | each cursor only moves forward, and strictly whenever its loop goes round again |
| MongoSync.FindSpec | src/core/mongo-sync-worker.ts:348-353 | a fetch returns the documents above the cursor in order without gaps, all of them when it comes back short |
| MongoSync.ReadRowsLeavesNoGap | src/core/sqlite-event-store.ts:1518-1535 | a batch read from the store passes over quarantined rows only |
| MongoSync.ImportAllSpec | src/core/sqlite-event-store.ts:1543-1622 | an import keeps the rows in place, leaves each fetched event in the store by id or by dedupe key, and adds only rows that carry one of the fetched events, were not in the store, and are not quarantined |
| MongoSync.LockedFetchIsQuiet | src/core/mongo-sync-worker.ts:287-322 | a lock around allocate-and-write that pulls respect is enough for every fetch to be quiet |
| MongoSync.QuietRunKeepsPullInv | src/core/mongo-sync-worker.ts:347-377 | while no fetch overtakes a reserved but unwritten number, no instance misses a document its pull cursor has passed |
| MongoSync.NoQuietRunMissesADocument | src/core/mongo-sync-worker.ts:347-377 | from the first sync on, every document at or below a pull cursor is in that store |
| MongoSync.NoisyFetchLosesADocument | src/core/mongo-sync-worker.ts:287-322 | otherwise not: from any state where a fetch would pass a reserved number whose event is new to the store, there is a run after which that document is behind the cursor and not in the store |
| MongoSync.OvertakenPushIsLost | src/core/mongo-sync-worker.ts:287-353 | this happens: for any two instances with one new event each there is a run from the first sync on that loses the slower one |
| MongoSync.RunKeepsLost | src/core/mongo-sync-worker.ts:347-377 | a document lost that way is never delivered later |
| MongoSync.RunKeepsIds | src/core/mongo-sync-worker.ts:291-317 | through every run an event id names one event, in all stores and documents |
| MongoSync.CaughtUpStoresAgree | src/core/mongo-sync-worker.ts:275-380 | at the end of a quiet run every row a store has sent, whatever rows its batches passed over as quarantined, is in every store that has pulled all |
| MongoSync.SentIsPublished | src/core/mongo-sync-worker.ts:283-334 | a row that was sent has a document with that very event |
| MongoSync.PulledAllHoldsPublished | src/core/mongo-sync-worker.ts:347-377 | where dedupe keys identify events too, a store that has pulled all holds the event of every document |
| MongoSync.StoresConverge | src/core/mongo-sync-worker.ts:275-380 | where dedupe keys identify events too, two stores that have pulled all hold the same published events, which are all of them, and every sent row is published |
| MongoSync.StoresAreEqualIff | src/core/mongo-sync-worker.ts:275-380 | they hold the very same events if and only if they hold the same unpublished ones |
| MongoSyncWorker.Worker.AllocateSeqRange | src/core/mongo-sync-worker.ts:248-265 | reserves a run of numbers above every earlier one; for a count of zero or less it reserves none and answers 1 |
| MongoSyncWorker.Worker.BulkWrite | src/core/mongo-sync-worker.ts:291-322 | the upserts are a run of the protocol that writes the whole batch |
| MongoSyncWorker.Worker.PushEvents | src/core/mongo-sync-worker.ts:275-337 | the push loop ends, is a run of the protocol, sends every row that is not quarantined and passes over the others, and counts them |
| MongoSyncWorker.Worker.PullEvents | src/core/mongo-sync-worker.ts:339-380 | the pull loop ends, is a run of the protocol, leaves no document above the cursor, adds only rows of pulled events, none quarantined and none that was there, and counts them |
| MongoSyncWorker.SyncAll | src/core/mongo-sync-worker.ts:275-380 | after any quiet history, crashes and earlier syncs included, any number of instances push and then pull: each has pulled all; each row not held back by quarantine has its document; each holds exactly the published events and those it holds back, where dedupe keys identify events; and what it holds back it held back before |
| MongoSyncWorker.FewerDocsAfter | src/core/mongo-sync-worker.ts:369-376 | a cursor moved to a document leaves strictly fewer above it |
| MongoSyncWorker.BatchCounts | src/core/mongo-sync-worker.ts:324-333 | a batch and what is left after it make up what there was to send |
| VectorOutbox.ClaimPicksOldest | src/core/vector-outbox.ts:137-156 | a claim takes as many pending jobs as it may, each once, and leaves no older one behind |
| VectorOutbox.StepKeepsInv | src/core/vector-outbox.ts:95-278 | every statement keeps the books of every job: claims = failures + conflict returns + recoveries + 1 while processing or done; failed exactly when the retries are used up; ids and keys unique |
| VectorOutbox.RunKeepsInv | src/core/vector-outbox.ts:95-278 | the same over every run in which only the holder of a claim reports on it |
| VectorOutbox.ReportKeepsEntry | src/core/vector-outbox.ts:161-210 | a report keeps a job's books exactly when the job is active |
| VectorOutbox.FailureReportIsSafeIff | src/core/vector-outbox.ts:174-210 | what a failure report does to a job that is not processing, exactly |
| VectorOutbox.LateUpdateIsOneStep | src/core/vector-outbox.ts:174-210 | whatever other workers do between the two statements of a failure report, it acts as one statement as long as the claim is not lost |
| VectorOutbox.StaleReadIsSafeIff | src/core/vector-outbox.ts:174-210 | if the claim was lost and won again in between, the books stay in order exactly when the count read is on the same side of the limit |
| VectorOutbox.LateReportBreaksTheBooks | src/core/vector-outbox.ts:161-210 | a worker presumed stuck that reports late makes a job count a claim that never was |
| VectorOutbox.RowKeepsItsClaim | src/core/vector-outbox.ts:137-278 | no statement hands a held job to another claim: it is reported or recovered first |
| VectorOutbox.ClaimIsExclusive | src/core/vector-outbox.ts:137-156 | two outstanding claims never share a job |
| VectorOutbox.FailedStaysFailed | src/core/vector-outbox.ts:245-265 | a failed job is never queued again |
| VectorOutbox.EnqueueIsIdempotent | src/core/vector-outbox.ts:95-128 | enqueueing the same item again returns the first job and changes nothing |
| VectorOutbox.Outbox.EnqueueWithResultSync | src/core/vector-outbox.ts:95-128 | inserts a new pending job exactly when none has the key, else finds that one, and returns its id |
| VectorOutbox.Outbox.ClaimJobs | src/core/vector-outbox.ts:137-156 | the claimed rows become processing and held by the claim, each other row stays as it is, and the jobs returned are the claimed rows, at most the limit |
| VectorOutbox.Outbox.MarkFailed | src/core/vector-outbox.ts:174-210 | reads the retry count and updates by it: a conflict returns the job uncounted, another failure counts and at the limit quarantines it; other jobs stay as they are |
| VectorOutbox.Outbox.Reconcile | src/core/vector-outbox.ts:245-265 | stuck rows, and failed ones with retries left, become pending and keep everything else, each other row stays as it is; while the books are in order no failed one has retries left |
| VectorOutbox.Outbox.Cleanup | src/core/vector-outbox.ts:270-278 | removes exactly the done jobs older than the threshold |
| VectorStore.UpsertIsIdempotent | src/core/vector-store.ts:260-286 | repeating an upsert changes nothing |
| VectorStore.UpsertKeepsDistinctIdsIff | src/core/vector-store.ts:260-286 | one row per id stays so exactly when the batch names no id twice |
| VectorStore.BuildIdDeletePredicates | src/core/vector-store.ts:376-386 | the chunks are the ids in order, none empty, none over 200, and no more chunks than needed |
| VectorStore.LiteralListRoundTrip | src/core/vector-store.ts:425-427 | whatever quotes and commas the ids hold, the SQL list read back is those ids |
| VectorStore.Attempt | src/core/vector-store.ts:269-275 | an attempt that stops early leaves a prefix of the batch deleted and nothing else changed |
| VectorStore.WriteExistingRowsWithRetry | src/core/vector-store.ts:260-286 | returns exactly when the table could always be reopened and nothing but fewer than three conflicts struck, and then the table is the old rows outside the batch followed by the batch; otherwise only rows of the batch are gone |
| VectorStore.FailedUpsertSparesOthers | src/core/vector-store.ts:260-286 | after a failure every row outside the batch is there and no row is new |
| VectorStore.VectorStore.UpsertRows | src/core/vector-store.ts:237-258 | a missing table is created with the rows, one that another process created first is upserted into, a creation refused for any other reason changes nothing, and other tables are untouched |
| EventGroups.TopicEventsCarry | src/core/consolidation-worker.ts:298-312 | a topic's group has an event id exactly when some event of that id carries the topic |
| EventGroups.MergeAllKeepsIdsAndTopics | src/core/consolidation-worker.ts:363-393 | merging overlapping groups loses and invents no event id and no topic |
| EventGroups.MergeAllKeepsGroupsTogether | src/core/consolidation-worker.ts:363-393 | every group ends, whole, inside one merged group |
| EventGroups.MergeIntoPlace | src/core/consolidation-worker.ts:367-389 | a group goes into the first earlier one that has more than half of its events, counted by shared ids, and alone to the end if there is none; every other group stays as it is |
| EventGroups.OverlapIsCount | src/core/consolidation-worker.ts:371-373 | the overlap is the number of places of the group whose event id the other has |
| EventGroups.GroupingLosesNothing | src/core/consolidation-worker.ts:297-318 | the groups of a working set hold exactly its events that carry a topic and exactly their topics, and no group repeats an event id or a topic |
| EventGroups.GroupsHoldTheirTopics | src/core/consolidation-worker.ts:297-393 | each group has exactly the events of the working set that carry one of its topics, and an event for each topic |
| EventGroups.GroupByTopic | src/core/consolidation-worker.ts:297-318 | the map-filling loops build, in order of first appearance, each topic's group and merge them |
| EventGroups.MergeOverlappingGroups | src/core/consolidation-worker.ts:363-393 | each group goes into the first earlier group that has more than half of its events, or stands alone |
| EventGroups.TimeProximityRange | src/core/consolidation-worker.ts:469-481 | time proximity is in [0, 1], and 1 exactly for fewer than two events or all at one time |
| EventGroups.ProximityFalls | src/core/consolidation-worker.ts:469-481 | proximity falls evenly with the time from the earliest to the latest event, to 0 at a day for each gap |
| EventGroups.ConfidenceRange | src/core/consolidation-worker.ts:453-464 | confidence is in [0, 1], and 1 exactly for ten or more simultaneous events with at most three topics |
| EventGroups.ConfidenceParts | src/core/consolidation-worker.ts:453-464 | what the number of events, their proximity and the topics are each worth, below and above ten events and three topics |
| Consolidation.LookupAgreesWithScan | src/core/consolidated-store.ts:321-336 | the indexed lookup answers as a scan of all memories would, but for events without an id |
| Consolidation.CreateKeepsIndex | src/core/consolidated-store.ts:27-57 | creating keeps the index in step with the memories |
| Consolidation.CreateKeepsSourcesDisjointIff | src/core/consolidated-store.ts:27-57 | a new memory shares no source event with the others exactly when the lookup finds none of its named events |
| Consolidation.LooksBeforeBothCreatesOverlap | src/core/consolidation-worker.ts:153-167 | two workers that both look before either creates store the same event twice |
| Consolidation.DeleteKeepsInv | src/core/consolidated-store.ts:179-188 | deleting removes the memory with its index rows |
| Consolidation.DeleteFreesEvents | src/core/consolidated-store.ts:179-188 | the events of a deleted memory can be consolidated again |
| Consolidation.ReopenIndexesIff | src/core/event-store.ts:281-291 | opening indexes a store that has no index yet, whatever its memories hold, leaves any other as it is, and changes nothing about which events are shared |
| Consolidation.ReopenedIndexIsExactIff | src/core/event-store.ts:281-291 | an index made on opening is free of blank ids exactly when no memory has an event without an id |
| Consolidation.RunKeepsInv | src/core/consolidation-worker.ts:144-170 | a run keeps index and disjointness although its own groups may overlap |
| Consolidation.RunAddsTheCreated | src/core/consolidation-worker.ts:144-170 | a run adds the memories it reports and nothing else, and changes none |
| Consolidation.RunUsesLargeGroups | src/core/consolidation-worker.ts:149-170 | each new memory has the event ids, in order, the topics, the summary and the confidence of one group of at least three events |
| Consolidation.RunKeepsTopicsTogether | src/core/consolidation-worker.ts:144-170 | the sources of each new memory are exactly the events of the working set that carry one of its topics, each once |
| Consolidation.MemoryConfidence | src/core/consolidation-worker.ts:162-167 | each new memory has a confidence in [0, 1] and at least three source events |
| Consolidation.RunCoversLargeGroups | src/core/consolidation-worker.ts:149-170 | after a run every group of three or more is consolidated, on its own or by a memory it shares events with |
| Consolidation.RunTwiceIsRunOnce | src/core/consolidation-worker.ts:129-170 | a second run on the same working set creates nothing |
| Consolidation.HistoryKeepsIndex | src/core/consolidated-store.ts:27-188 | through any runs, deletions and restarts the index matches the memories, from an indexed store or from one without an index that is opened first |
| Consolidation.HistoryKeepsInv | src/core/consolidated-store.ts:27-188 | and no two memories share a named event, if none did at the start |
| Consolidation.ConsolidatedStore.Create | src/core/consolidated-store.ts:27-57 | writes memory and index rows together, or neither when the id is taken |
| Consolidation.ConsolidatedStore.IsAlreadyConsolidated | src/core/consolidated-store.ts:321-336 | true exactly when an index row names one of the ids |
| Consolidation.ConsolidatedStore.ConsolidateWithReport | src/core/consolidation-worker.ts:129-170 | the loop over the groups makes the memories the run is to make, under the ids drawn for them |
| JudgeRun.ReadEvaluatedRowsByQuestionId | scripts/longmemeval-codex-judge.ts:287-325 | the rows read are accepted exactly when they are verdicts on the first hypotheses in order |
| JudgeRun.ResumeKeepsVerdicts | scripts/longmemeval-codex-judge.ts:94-138 | resuming a resumable disk is never refused, keeps every verdict in place, leaves a resumable disk, and when it completes there is exactly one row per question |
| JudgeRun.ResumesKeepVerdicts | scripts/longmemeval-codex-judge.ts:94-138 | the same over any number of stops and resumes |
| JudgeRun.RunHoldsAnswers | scripts/longmemeval-codex-judge.ts:103-134 | every row a run adds holds the answer that was given for its question, one answer for each question asked, in their order |
| JudgeRun.VerdictsAreAnswers | scripts/longmemeval-codex-judge.ts:94-138 | after a fresh run and any resumes each verdict of the output is one of the answers given for its question |
| JudgeRun.ResumeCompletes | scripts/longmemeval-codex-judge.ts:94-138 | once nothing fails any more one resume completes the output |
| JudgeRun.JudgeOneKeepsResumable | scripts/longmemeval-codex-judge.ts:103-134 | one question, with its failure handler, keeps the disk resumable whatever each statement's fate |
| JudgeRun.FreshRunLeaves | scripts/longmemeval-codex-judge.ts:199-221 | a fresh run that stops anywhere leaves nothing, an empty output without checkpoint, or a resumable disk |
| JudgeRun.FreshRunGetsStuckIff | scripts/longmemeval-codex-judge.ts:218-219 | it leaves the output without a checkpoint exactly when the output was created and the first checkpoint was not |
| JudgeRun.StuckNeedsForce | scripts/longmemeval-codex-judge.ts:199-221 | from there both a fresh run and a resume are refused, and a forced run completes |
| JudgeRun.RunKeepsHonest | scripts/longmemeval-codex-judge.ts:94-138 | a run in any mode leaves first verdicts in order and a checkpoint of this run or none |
| JudgeRun.RunsLeaveADistinctPrefix | scripts/longmemeval-codex-judge.ts:94-138 | after any runs in any mode the output is a duplicate-free prefix of the questions, and can be resumed exactly when there is a checkpoint that counts no more rows than there are |
| JudgeRun.JudgeRunner.JudgeRemaining | scripts/longmemeval-codex-judge.ts:103-134 | the loop that skips what has a verdict judges exactly the questions after the rows on disk, and each row it adds holds the answer consumed for it |
| JudgeRun.JudgeRunner.JudgeAll | scripts/longmemeval-codex-judge.ts:74-138 | the program: validation, preparation, loop and last checkpoint, with their errors; each row it adds holds the answer consumed for it |
| JudgeRun.JudgeRunner.PrepareCheckpointedRun | scripts/longmemeval-codex-judge.ts:199-221 | refuses exactly when it would overwrite or resume without a fitting checkpoint, and then changes nothing; otherwise it removes under force and creates output and checkpoint in this order |
| JudgeRun.HasUniqueIds | scripts/longmemeval-codex-judge.ts:500-508 | true exactly when no question id comes twice |
| BatchRun.ReadRowsByQuestionId | scripts/longmemeval-codex-batch.ts:522-548 | the rows read are accepted exactly when they belong to the questions and none comes twice, in whatever order |
| BatchRun.AskOneGrows | scripts/longmemeval-codex-batch.ts:305-332 | one question adds its own row or none, whatever each statement's fate, and exactly its row when it ends well |
| BatchRun.PhaseAddsTheMissing | scripts/longmemeval-codex-batch.ts:264-334 | a phase that ends well appends exactly the missing questions' rows, in the order of the questions, to rows in whatever order |
| BatchRun.PhaseCompletes | scripts/longmemeval-codex-batch.ts:264-334 | and leaves exactly one row for each question |
| BatchRun.PhaseHoldsAnswers | scripts/longmemeval-codex-batch.ts:264-334 | every row a phase adds holds the answer of the command that was started for its question |
| BatchRun.RunHoldsAnswers | scripts/longmemeval-codex-batch.ts:128-176 | so does every row of both files that a run in any mode adds |
| BatchRun.RunKeepsRows | scripts/longmemeval-codex-batch.ts:128-176 | whatever becomes of its statements, a fresh or resumed run keeps every row of both files in place, repeats none, judges nothing before all is read, and completes only with one row per question in both files and every file readable |
| BatchRun.AttemptsKeepRows | scripts/longmemeval-codex-batch.ts:128-176 | the same over any number of fresh and resumed runs, from the empty directory on |
| BatchRun.FreshRunLeaves | scripts/longmemeval-codex-batch.ts:178-199 | a fresh run leaves acceptable rows and a checkpoint, or nothing, the latter exactly when its first checkpoint was not begun |
| BatchRun.ResumeIsRejectedIff | scripts/longmemeval-codex-batch.ts:201-229 | whatever rows were left, a resumed run is refused exactly when the checkpoint cannot be read, or when it has written its own and finds both artifacts but cannot read them |
| BatchRun.CutOffCheckpointEndsIt | scripts/longmemeval-codex-batch.ts:440-483 | if one checkpoint of a resumed run is cut off, no row is lost, and every later run but a forced one is refused |
| BatchRun.CutOffReportEndsIt | scripts/longmemeval-codex-batch.ts:225-262 | so if a fresh run is stopped in writing the report, although its checkpoint can be read |
| BatchRun.StuckStays | scripts/longmemeval-codex-batch.ts:178-229 | what cannot be resumed stays so, with the rows it has, whatever is tried but force |
| BatchRun.RunCompletesIff | scripts/longmemeval-codex-batch.ts:128-176 | when nothing fails: a fresh run completes if and only if it finds nothing, a resumed one if and only if checkpoint and artifacts can be read and both files hold acceptable rows, a forced one always, each if the questions are distinct |
| BatchRun.ForceKeepsAccepted | scripts/longmemeval-codex-batch.ts:187-190 | a forced run goes on, in each file, from what it could not remove or from nothing, and leaves acceptable rows |
| BatchRun.FailedRemovalKeepsOldVerdicts | scripts/longmemeval-codex-batch.ts:187-190 | if only the old verdicts cannot be removed, a forced run reads every question anew and completes with exactly the old verdicts |
| BatchRun.BatchRunner.RunOne | scripts/longmemeval-codex-batch.ts:366-411 | one question: checkpoint, command, row, checkpoint, and the checkpoint of a failed command; it adds its own row or none, and its row when it ends well |
| BatchRun.BatchRunner.RunPhase | scripts/longmemeval-codex-batch.ts:366-411 | the loop that skips the questions with a row only adds acceptable rows to its own file, and exactly the missing ones when it ends well |
| BatchRun.BatchRunner.Run | scripts/longmemeval-codex-batch.ts:128-176 | the program in its three modes, with its refusals and validations: fresh or resumed, it keeps all rows and completes only with one row per question in both files; each row it adds holds the answer for its question |
| BatchRun.BatchRunner.PrepareOutputFiles | scripts/longmemeval-codex-batch.ts:178-222 | refuses exactly to overwrite and to resume without a readable checkpoint, and then changes nothing; a forced run removes what it can |
| BatchRun.BatchRunner.EnsureRetrievalArtifacts | scripts/longmemeval-codex-batch.ts:225-262 | takes the artifacts that a resumed run finds, and otherwise writes both |
| SessionQrels.CountersCountPrompts | src/core/session-qrels.ts:356-360 | a session's counter is the number of its prompts worth asking |
| SessionQrels.PendingIsTheWaitingPrompt | src/core/session-qrels.ts:133-145 | a session's pending entry is its last prompt, with its own turn number, as long as no later line of the session settled it |
| SessionQrels.LineAddsIffItAnswers | src/core/session-qrels.ts:124-172 | a line adds a query exactly when it is the first answer after a waiting prompt of its session |
| SessionQrels.AnswerAddsItsPair | src/core/session-qrels.ts:143-171 | and then it adds one query with the prompt's text and one memory with the answer's, or the placeholders of a redacted fixture, named by session and turn |
| SessionQrels.PairsAreTheAnswers | src/core/session-qrels.ts:114-172 | the queries and memories of a log are one such pair for each line that answers a waiting prompt, in the order of those lines, and no others |
| SessionQrels.SessionsDoNotMix | src/core/session-qrels.ts:114-172 | however sessions are interleaved, each yields the queries and memories its own lines yield |
| SessionQrels.SuffixInjective | src/core/session-qrels.ts:149-151 | the suffix of an identifier determines session and turn |
| SessionQrels.IdentifiersAreDistinct | src/core/session-qrels.ts:149-170 | queries and memories pair off one to one in order, and no identifier is given twice |
| SessionQrels.BuildSessionQrelsFixture | src/core/session-qrels.ts:114-190 | a cap only cuts the end off: queries and memories are the first of the uncapped ones, followed by as many no-match queries as fit |
| SessionQrels.AppendExplicitNoMatchQueries | src/core/session-qrels.ts:289-314 | appends the given questions in order, numbered on from the answered ones |
| SessionQrels.NoMatchIdClashesIff | src/core/session-qrels.ts:302 | a generated no-match identifier equals an answered query's exactly when that session is called "no-match" and has that turn number |
| SessionQrels.FixtureIdsDistinctIff | src/core/session-qrels.ts:114-190 | the identifiers a fixture generates are distinct if and only if no answered query of a session called "no-match" has a turn number that a no-match question without its own identifier gets |
| SessionQrels.FixtureRepeatsAnId | src/core/session-qrels.ts:289-314 | a log of two prompts and an answer, and one no-match question, give two queries with one identifier |
| DiverseSelect.DiverseSelect | src/core/memory-field-evaluation.ts:393-417 | chooses exactly as many pairs as the limit or the supply allows, in rounds; a first part of every bucket; no session more than one ahead of another that had more |
| DiverseSelect.Round | src/core/memory-field-evaluation.ts:405-412 | one round takes the next pair of every session that has one, until the limit |
| DiverseSelect.Buckets | src/core/memory-field-evaluation.ts:395-400 | each session's bucket is its pairs in order, and sessions are listed as first seen |
| DiverseSelect.ChosenTakesShares | src/core/memory-field-evaluation.ts:404-415 | at any point of any round each session has given the first pairs of its bucket, as many as the rounds allow |
| DiverseSelect.ChosenIsFair | src/core/memory-field-evaluation.ts:404-415 | at any point of any round the choice is fair between any two sessions |
| DiverseSelect.ChosenCount | src/core/memory-field-evaluation.ts:404-415 | never more pairs than there are, and all of them once no bucket is deeper than the rounds |
| Graduation.RunKeeps | src/core/graduation-worker.ts:139-181 | with a cooldown and a running clock a run evaluates each event at most once, raises it by at most one level, and lowers none |
| Graduation.RunIsExact | src/core/graduation-worker.ts:139-191 | a run evaluates exactly the events offered to it that were never evaluated or whose cooldown is over, and moves up exactly those of them whose record, the durable one unless it shows fewer accesses, misses no criterion |
| Graduation.FetchedIff | src/core/sqlite-event-store.ts:2351-2369 | an event is offered exactly when it is at the level and fewer than a batch of those at it come before |
| Graduation.PassesIffMeetsAll | src/core/graduation.ts:266-300 | a record passes exactly when it misses none of the four criteria |
| Graduation.CheckCriteria | src/core/graduation.ts:266-300 | names the first criterion, in their order, that the record misses, or none |
| Graduation.RunCounts | src/core/graduation-worker.ts:139-181 | the levels rise together by the number reported as graduated, which is the sum of the counts by level |
| Graduation.NoCooldownClimbs | src/core/graduation-worker.ts:160-176 | without a cooldown, or at time zero, an event that meets all criteria is evaluated at every level and climbs them all in one run |
| Graduation.TrimKeepsTheNewest | src/core/graduation-worker.ts:183-188 | an evaluation is forgotten only when 1000 at least as recent ones are kept |
| Graduation.AtLevelMembers | src/core/sqlite-event-store.ts:2351-2369 | the candidates of a level are distinct events at that level |
| Sorting.SortByIsStable | src/core/graduation-worker.ts:186 | evaluations of the same time keep their order when sorted |
| Graduation.GraduationWorker.HydrateMetrics | src/core/graduation.ts:127-135 | durable records replace smaller or missing ones |
| Graduation.GraduationWorker.EvaluateGraduation | src/core/graduation.ts:140-186 | an event moves to the next level exactly when it is below the last and its record misses no criterion, and no other event moves; otherwise the reason is the lack of a record, the top level, or the first criterion missed |
| Graduation.GraduationWorker.EvaluateUnlessCooling | src/core/graduation-worker.ts:160-176 | an event still cooling down is left alone, another is evaluated and remembered; with a cooldown and a running clock none is evaluated twice or raised by more than one level since the start of the run |
| Graduation.GraduationWorker.RunLevel | src/core/graduation-worker.ts:149-181 | one level: fetch, hydrate, evaluate |
| Graduation.GraduationWorker.RunGraduation | src/core/graduation-worker.ts:139-191 | the four levels in turn, the counters, and the trimming |
| Telemetry.StepKeepsInv | src/core/runtime-resource-telemetry.ts:256-296 | every timely call whose write works keeps the snapshot consistent and every unsaved change scheduled within an interval |
| Telemetry.FileIsFresh | src/core/runtime-resource-telemetry.ts:256-281 | a file that lags has been lagging for at most the interval |
| Telemetry.RunKeepsFileFresh | src/core/runtime-resource-telemetry.ts:256-296 | over every timely run the file lags by at most the interval, its two accounts of loaded models agree, and no average exceeds its maximum |
| Telemetry.RunIsAccountedFor | src/core/runtime-resource-telemetry.ts:167-246 | after any run, whatever becomes of its writes, the snapshot counts every call of each kind, has the total time, the longest and the failed retrievals of each tier, and as loaded exactly the models that were loaded and not released since |
| Telemetry.StopLeavesNoFile | src/core/runtime-resource-telemetry.ts:175-189 | after the stop a left-over timer brings no file back |
| Telemetry.FailedWriteIsForgotten | src/core/runtime-resource-telemetry.ts:283-296 | a write that fails, whoever makes it, is not tried again by any timer |
| Telemetry.RuntimeResourceTelemetry.Touch | src/core/runtime-resource-telemetry.ts:256-281 | derives the redundant fields consistently, then writes at once or leaves the change to a timer that is set |
| Telemetry.RuntimeResourceTelemetry.WriteNow | src/core/runtime-resource-telemetry.ts:283-296 | clears the flag whether or not the write works; if it works the file is the snapshot |
| Telemetry.RuntimeResourceTelemetry.TimerCallback | src/core/runtime-resource-telemetry.ts:276-279 | writes what is dirty, and keeps the snapshot consistent and every unsaved change scheduled when it is on time and the write works |
| Telemetry.RuntimeResourceTelemetry.RegisterProcess | src/core/runtime-resource-telemetry.ts:167-173 | the process is registered under its client and runs, the file is the snapshot at once, and the schedule is kept |
| Telemetry.RuntimeResourceTelemetry.MarkProcessStopped | src/core/runtime-resource-telemetry.ts:175-189 | no file and nothing left to write, and the schedule is kept |
| Telemetry.RuntimeResourceTelemetry.RecordModelLoad | src/core/runtime-resource-telemetry.ts:191-201 | the snapshot says that a model is loaded and how many are, and the schedule is kept |
| Telemetry.RuntimeResourceTelemetry.RecordModelRelease | src/core/runtime-resource-telemetry.ts:217-225 | the snapshot says loaded exactly while another model is, and the schedule is kept |
| Telemetry.RuntimeResourceTelemetry.RecordRetrieval | src/core/runtime-resource-telemetry.ts:237-246 | the total, the maximum and the counts of the tier stay in order, and the schedule is kept |
| HybridRanking.SessionIdsStay | src/core/longmemeval-hybrid-retrieval.ts:403-407 | a session id converts to itself, so converting twice is converting once |
| HybridRanking.TurnBelongsToSession | src/core/longmemeval-hybrid-retrieval.ts:403-407 | the id of a turn converts to what stands before the first marker, its session |
| HybridRanking.FusedStep | src/core/longmemeval-hybrid-retrieval.ts:128-147 | one more place of a list adds its weight over the rank and keeps the better rank |
| HybridRanking.ShareOfOnePlace | src/core/longmemeval-hybrid-retrieval.ts:134-136 | an id that holds one place of a list gets the weight divided by that place |
| HybridRanking.SharesAddUp | src/core/longmemeval-hybrid-retrieval.ts:134-144 | each further place of an id adds its weight over the place |
| HybridRanking.AddRankedIds | src/core/longmemeval-hybrid-retrieval.ts:128-147 | after a list every id has the sum of weight over rank over all its places in both lists, and its best rank |
| HybridRanking.Fuse | src/core/longmemeval-hybrid-retrieval.ts:71-83 | every session of either list once, best fused score first, then best rank, then by id |
| HybridRanking.SiblingsAreBest | src/core/longmemeval-hybrid-retrieval.ts:191-225 | the siblings are candidates that are no seed and have enough terms in common with both seeds and one with the question, up to the limit, none left out that scores better, best first |
| HybridRanking.CompletionPromotes | src/core/longmemeval-hybrid-retrieval.ts:162-235 | the two best stay in place, then come the best siblings, then the other retrieved in their order, as far as topK reaches; without two terms in common nothing changes |
| HybridRanking.CompletionKeepsRetrieved | src/core/longmemeval-hybrid-retrieval.ts:220-226 | whatever was retrieved stays unless the list is full, and only qualifying candidates come in |
| HybridRanking.QualifyingComesIn | src/core/longmemeval-hybrid-retrieval.ts:191-226 | a qualifying candidate comes in, unless all places for siblings go to such that score no worse |
| HybridRanking.UniqueIsFirstSeen | src/core/longmemeval-hybrid-retrieval.ts:419-421 | dropping repeats keeps each id where it is first seen |
| HybridRanking.FirstIsBestPreference | src/core/longmemeval-hybrid-retrieval.ts:270-281 | the first of the sorted candidates is the earliest of those that score best |
| HybridRanking.BackfillPreferenceCandidates | src/core/longmemeval-hybrid-retrieval.ts:257-298 | backfill appends the earliest best preference among the candidates where there is one and room for it, and nothing else |
| HybridRanking.Combine | src/core/longmemeval-hybrid-retrieval.ts:65-122 | the final list is the best topK of the fusion, completed and then backfilled; it names no session twice, is at most topK long, begins with the two best of the fusion, and loses none of them unless it is full |
| RetrievalFilters.StrictFilterIff | src/core/retriever.ts:973-1035 | in strict mode with some project allowed, exactly the results in scope, of an allowed project and with every requested facet pass |
| RetrievalFilters.FilterIsSafe | src/core/retriever.ts:973-1095 | in every mode what passes comes from the input, and meets scope, strict project and facets |
| RetrievalFilters.StrictNeedsAProject | src/core/retriever.ts:1021-1029 | strict mode with no project named passes events of every project |
| RetrievalFilters.ApplyScopeFilters | src/core/retriever.ts:973-1035 | the loop over the results and the project choice compute the filter |
| RetrievalFilters.ApplyFacetFilters | src/core/retriever.ts:1037-1095 | the nested loop keeps the results that carry every requested facet, and none when one is malformed or no project is given |
| RetrievalFilters.QualityOnlyDrops | src/core/retriever.ts:531-560 | the quality tests only drop results, and every one that is kept passes them |
| RetrievalFilters.ScopeFilteredIsKeep | src/core/retriever.ts:973-1095 | the filter drops no result that the requested conditions let through, and keeps their order |
| RetrievalFilters.ApplyQualityFilters | src/core/retriever.ts:531-560 | the four tests in turn and the score cliff keep exactly the results that pass them, in their order |
| RetrievalFilters.QualityFilteredIsFiltered | src/core/retriever.ts:514-560 | what filters and tests leave of a list: the results at exactly the places that both let through, and, above two of them with a first score of at least 0.8, only those within 0.25 of it and at the minimum score |
| RetrievalExpansion.HopSearches | src/core/retriever.ts:647-684 | one hop follows every link of the frontier: below the limit nothing within that many links is missing |
| RetrievalExpansion.ExpandFrontier | src/core/retriever.ts:647-684 | one hop only adds rows of linked events, each with the score of the row it comes from less the penalty for the hop, and queues them |
| RetrievalExpansion.ClosedCovers | src/core/retriever.ts:645-684 | when nothing is left to expand every link has been followed |
| RetrievalExpansion.ExpandGraphHops | src/core/retriever.ts:639-684 | with the two optional graph lanes off: distinct events within the hop limit of a seed, each a seed or scored by the chain of links that reached it, best first, at most the limit, and all of them when the list is shorter |
| RetrievalExpansion.FirstAreBest | src/core/retriever.ts:586-590 | the seed kept for a session is its best |
| RetrievalExpansion.ExpandSessionEventHybrid | src/core/retriever.ts:574-628 | the seeds as they are when nothing can be added; else one row per event, best first: every seed's, each other a worthy event of the session of a best seed with its mixed score, and all of those when the list is below the limit |
| Retriever.RunStage | src/core/retriever.ts:431-529 | a stage delivers the first topK of exactly those candidates that the filters, the tests and the score cliff let through, in their order; the candidates are what search, the expansions asked for and reranking yield |
| Retriever.Retrieve | src/core/retriever.ts:229-364 | which stages are tried and what each answers: the next one exactly when a fallback is allowed and the last answer calls for it; selected are exactly the confident results among the first topK of the last answer, in their order, all allowed, and in the caller's scope unless the scope-expanded stage is the last |
| Retriever.GoodCandidateIsAnswered | src/core/retriever.ts:431-529 | a candidate that is allowed, passes the tests and scores near the best is in the stage's answer, unless that is full of candidates before it |
| Retriever.ConfidentIsSelected | src/core/retriever.ts:330-364 | a confident result among the first topK of the last answer is selected |

## Left out

- Real numbers: similarities, scores, discounts and confidences are exact reals, so rounding of doubles is not modelled; the window sizes of 1.1 and 1.2 times the quote are the exact products rounded down.
- `log2` and powers of two: nDCG takes any positive non-increasing discount and any monotone gain that is zero at zero, which covers them.
- Text folding of the fuzzy match (Unicode form, case, punctuation), topic extraction, tokenisers, preference scoring, prompt filters and hashes enter as arbitrary functions or values.
- The first version of the aligner (`align`), its options object, and the hash stored with a quote.
- TryFuzzyMatchV2: says nothing of the text inside a fuzzy span, because the source maps positions of punctuation-free text onto the original and is only approximate there.
- RetrievalBenchmark label records are maps: an id spelled like a property every JavaScript object inherits would read that property instead of a missing label.
- MongoSync takes a crash of the client to end the upserts of its bulk write; a server that has received them all may go on, so a pull after such a crash can still be overtaken.
- MongoDB indexes, connection handling, statistics, deletion of rows, and two workers on one store; an event that shares only its dedupe key counts as present, as the import treats it.
- VectorOutbox takes who may report as a rule for workers; the source does not check it. In its runs a failure report is one step, which LateUpdateIsOneStep justifies.
- VectorStore leaves out compaction, the pauses between attempts, concurrent writers to the same rows, and the grouping of a batch by table name.
- Consolidation leaves out rules promoted from summaries, pruning of the working set, and the cost report; random memory ids are taken as unused. Groups are values, not shared objects, so the merged list does not alias the topic groups.
- JudgeRun takes a line as appended whole and a failing statement as either done or not done; accuracy figures are not modelled.
- BatchRun takes a line as appended whole or not at all, a checkpoint of other options as one that cannot be read, and identifiers as not blank; it leaves out the option to skip the judge and what the retrieval computes.
- SessionQrels takes lines as parsed; JSON parsing and file collection are not modelled.
- Graduation models the SQLite store's candidates and access records; recording accesses, batch promotion at a given level and insight extraction are not part of it.
- Telemetry leaves out load timings, host reports and pruning; timers fire on time.
- HybridRanking leaves out confidence, traces and promotion counts.
- NormalizeKs: cut-offs that are not a number or infinite are outside the model; the sort has no defined order with the former.
- ExpandGraphHops: models the walk along links; the query-graph and session-file lanes, which may add rows that no link leads to, are off.
- Retriever leaves out the query-graph and touched-file lanes, query rewriting, shared memories, token budgets and debug details; the filters come after every lane, and what is proved of them holds for any input.
- The file-based sync worker, the worker lock and replay promotion are not part of this project.
