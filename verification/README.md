# Verified model of the caption workbench

A Dafny model of the parts of the repository that keep members' work safe, with proofs that
hold for every input, every run and every reachable state.

**Exact text preservation.** Members lock fragments of a text; AI revisions and manual edits
must keep them. `TextMatch` and `Validation` hold the two server validators and the proof that
leftmost greedy search is exact. `Utf16`, `Locator` and `Sentences` hold the browser side, which
counts 16-bit units where the server counts code points, and the refinement between the two;
`StrippedEdits` carries it over to the stripped content that the endpoint checks.

**The durable AI queue.** `Domain`, `Documents` and `DocumentFacts` describe one document with
its analyses, suggestions, versions and locks. `Queue` is the transition system: requests,
any number of workers, the provider's answers, failures, shutdowns, crashes and the clock, one
step per committed transaction. `Next` is total, so every list of steps is a run.
`QueueInvariant`, `QueueAnalyses`, `QueueFifo`, `QueueAgreement`, `QueueDraft`, `QueueFreeze`,
`QueueOneWorker` and `QueueIdempotency` prove what runs keep, and `QueueTheorems` puts the
promises to members together. `QueueService` is the same behaviour as code that updates rows in
place; each method is tied to its step. `DocumentMeans` and `QueueMeans` say what filters, the
merge, requests and answers come to, with every condition written out. `AiLimits` holds the time
windows.

Three writes in the code do not look at the operation's status: the worker's clean-up, the
success commit and the cancellation record. The model keeps them as they are. What they can
break is therefore proved as equivalences: a run keeps state agreement, or the first-draft rule,
in every state if and only if each of its steps meets a condition that can be read off the state
before it, and a recorded success stays recorded, or is cleared, unless the step is the shutdown
of the run that has just committed it. The late answer of an operation that has ended already
is the one step that can change content under an active operation or save a text that misses a
lock, and a merge on rows that have moved on can leave too few suggestions; each has its exact
condition, with no proviso on the rest of the run (`QueueFreeze`, `QueueLocks`, `QueueMerge`,
`QueueOrderly`), and a run in `QueueLateRuns`. `QueueBadRuns` gives runs that break agreement, by
a clean-up (with two workers, and with one) and by a late success, and a run in which a shutdown
turns a recorded success into a cancellation. `QueueDraftRuns` gives runs that break the
first-draft rule. `QueueClaims` shows what a claimed run can find at its commit, and
`QueueSchedule` replaces the conditions on what a write finds by conditions on the schedule. The
timestamp condition of the member order is an equivalence too.

**Around the queue.** `Leases` is the per-member lease with its time windows, `RateLimit` the
login limiter, `BrowserQueue` the browser's queue store and `Client` the request loop together
with the server's idempotency.

A step or method that the code refuses leaves the state alone and reports the code's error.
Fresh identifiers, tokens and times are parameters. Where documentation and code differ the code
is followed: the transition table is not consulted by finalize and manual edit, which set the
state directly.

## Model

| member | source | states |
|---|---|---|
| `TextMatch.FindFirst` | `backend/app/modules/ai/validation.py:20` | The search returns the first occurrence at or after the cursor, or -1 iff there is none. |
| `TextMatch.GreedyOptimal` | `backend/app/modules/ai/validation.py:20-22` | Leftmost greedy search is optimal: no family of pairwise disjoint occurrences, of any size, beats the hits it finds. |
| `TextMatch.GreedyExact` | `backend/app/modules/ai/validation.py:18-23` | The greedy search succeeds n times iff n pairwise disjoint occurrences exist, empty fragments included. |
| `TextMatch.GreedyIsCapacity` | `backend/app/modules/ai/validation.py:18-23` | The number of hits in n searches is the largest number, up to n, of disjoint occurrences. |
| `Validation.SearchExact` | `backend/app/modules/ai/validation.py:20-22` | One more search from the stored cursor succeeds iff one more disjoint occurrence exists, and moves the cursor behind it. |
| `Validation.ValidateLockedFragments` | `backend/app/modules/ai/validation.py:14-31` | The loop reports exactly the fragments whose rank among equal texts exceeds the room in the candidate; it passes iff each distinct text has as many disjoint occurrences as locks. |
| `Validation.ValidateLockConstraints` | `backend/app/modules/tasks/domain.py:91-101` | The manual-edit validator, sorting first, reports the missing texts in index order; it passes iff every text is held often enough, whatever the list order. |
| `Validation.MissingIsShortfall` | `backend/app/modules/ai/validation.py:19-30` | Per text, the number of reported locks is the number of locks minus the number of disjoint occurrences available to them. |
| `Validation.TotalIsSumOfShortfalls` | `backend/app/modules/ai/validation.py:31` | The number of reported locks is the sum of the shortfalls over the distinct texts. |
| `Validation.NothingMissing` | `backend/app/modules/ai/validation.py:31` | An empty report is the same as every distinct text having its disjoint occurrences. |
| `Validation.LockOrderIrrelevant` | `backend/app/modules/ai/validation.py:19` | Permuting the lock list permutes the report: the same texts, each as often. |
| `Validation.ValidatorsAgree` | `backend/app/modules/tasks/domain.py:95-101` | On permuted lists of the same texts both server validators report the same texts with the same multiplicities and the same total. |
| `Validation.SortPermutes` | `backend/app/modules/tasks/domain.py:95` | Sorting by order index yields the locks in index order with the same texts, each as often. |
| `Validation.ValidateSelectionRevision` | `backend/app/modules/ai/validation.py:49-72` | No violation iff the candidate is prefix + some middle + suffix and every lock is held; the violations are the outside one, if any, then the missing fragments. |
| `Validation.OutsideLocksSurvive` | `backend/app/modules/ai/validation.py:55-72` | If every lock has its own place outside the selection, no candidate that keeps the outside can fail the lock check. |
| `Validation.AssignedHeld` | `backend/app/modules/tasks/domain.py:93-100` | Giving each lock a place such that equal texts do not overlap is enough for the validators to pass. |
| `Utf16.OffsetRoundTrip` | `frontend/src/features/workbench/sentences.ts:6-7` | Code-point offset to UTF-16 offset and back is the identity on every 16-bit text, unpaired surrogates included. |
| `Utf16.UnitOffsetRoundTrip` | `frontend/src/features/workbench/sentences.ts:6-7` | In the other direction the identity holds iff the offset does not split a surrogate pair. |
| `Utf16.OffsetMonotone` | `frontend/src/features/workbench/sentences.ts:7` | Later code points start at later units, inside the text. |
| `Utf16.SliceSpells` | `frontend/src/features/workbench/sentences.ts:14-15` | The browser's slice between converted offsets decodes to the server's slice of code points. |
| `Utf16.DecodeInjective` | `frontend/src/features/workbench/sentences.ts:6-7` | Different 16-bit texts decode to different code-point sequences. |
| `Utf16.PointRoundTrip` | `frontend/src/features/workbench/sentences.ts:6-7` | Every code point is read back from the one or two units that encode it, so pairs are joined with the right value. |
| `Utf16.OccursDecoded` | `frontend/src/features/workbench/sentences.ts:42` | An occurrence that splits no pair is an occurrence of code points at the converted offset, of the converted length. |
| `Locator.LocateLocks` | `frontend/src/features/workbench/sentences.ts:9-25` | The loop computes the ranges of the locks tried in turn, own-version locks first; the search loop terminates. |
| `Locator.FindFree` | `frontend/src/features/workbench/sentences.ts:19-20` | The `indexOf` loop returns the first occurrence whose units no range has taken, and -1 iff every occurrence inside the text is taken. |
| `Locator.PlaceLock` | `frontend/src/features/workbench/sentences.ts:12-21` | A lock of the shown version takes its recorded range if the text reads so there and the range is free; any other case takes the first free occurrence, or none. |
| `Locator.PlaceNext` | `frontend/src/features/workbench/sentences.ts:11-22` | One round appends the lock's range at the place so described, with its id and length, or nothing. |
| `Locator.FreeFirst` | `frontend/src/features/workbench/sentences.ts:19-20` | The specified place is the first free occurrence at or after the offset: every earlier occurrence meets a taken range. |
| `Locator.SelectFiltered` | `frontend/src/features/workbench/sentences.ts:11` | The sort puts all locks of the shown version, in list order, before all others, in list order. |
| `Locator.LocateSound` | `frontend/src/features/workbench/sentences.ts:9-25` | The ranges are pairwise disjoint, each spells its lock's text, and each lock has at most one. |
| `Locator.LocateMaximal` | `frontend/src/features/workbench/sentences.ts:18-22` | A lock stays unplaced only if every occurrence of its text meets a placed range. |
| `Locator.OwnLocksLand` | `frontend/src/features/workbench/sentences.ts:13-16` | Own-version locks that match the text and do not overlap land exactly at their recorded ranges. |
| `Locator.OwnRangesKept` | `frontend/src/features/workbench/sentences.ts:11-22` | They do so whatever other locks are listed and in whatever order. |
| `Locator.AllPlacedHeld` | `frontend/src/features/workbench/WorkbenchPage.vue:144` | If every lock is placed, the decoded text has all of them, each at its own place. |
| `Locator.ClientRefinesServer` | `frontend/src/features/workbench/WorkbenchPage.vue:144` | If the browser places every lock in a text, the server's manual-edit validator reports nothing on it, for lock texts that are whole code points at both ends. |
| `Locator.HalfPairSlipsThrough` | `frontend/src/features/workbench/sentences.ts:19` | For a lock that starts with a low or ends with a high surrogate, a text exists in which the browser places it and the server misses it. |
| `Locator.PlacedMeansHeldIffWhole` | `frontend/src/features/workbench/sentences.ts:9-25` | So for one lock, being placed means being held in every text iff the lock text does not start or end with half a pair. |
| `StrippedEdits.StrippingKeepsIffBare` | `backend/app/modules/tasks/schemas.py:18` | Stripping a text never loses an occurrence of a fragment, in any number, iff the fragment has no white space at either end. |
| `StrippedEdits.ClientRefinesServerStripped` | `backend/app/modules/tasks/schemas.py:286` | If the browser places every lock in the text as typed, the validator reports nothing on the stripped content, for lock texts that are whole code points and bare at both ends. |
| `StrippedEdits.PlacedMeansHeldStrippedIff` | `backend/app/modules/tasks/schemas.py:286` | For one lock, of the shown version or another, being placed means being held in the stripped content of every text iff its text ends in no half pair and no white space. |
| `StrippedEdits.StrippedSlipsThrough` | `backend/app/modules/tasks/schemas.py:18` | Otherwise a text exists in which the browser places the lock and the server misses it. |
| `Trimming.TrimIsBare` | `backend/app/modules/tasks/schemas.py:18` | What stripping leaves has no white space at either end. |
| `Sentences.SegmentRejoins` | `frontend/src/features/workbench/sentences.ts:31-33` | Leading white space, sentence and trailing white space rejoin to the segment. |
| `Sentences.SentenceIsBare` | `frontend/src/features/workbench/sentences.ts:31-33` | The sentence has no white space at either end, what stands before and after it is white space, and it is empty iff the segment is all white space. |
| `Sentences.BoundariesExact` | `frontend/src/features/workbench/sentences.ts:36-37` | The boundaries are the sentence's ends and the clipped ends of the ranges that meet it, each once, in increasing order. |
| `Sentences.SentenceRejoins` | `frontend/src/features/workbench/sentences.ts:31-42` | For a segment standing in the text, the three pieces rejoin to it and the parts rejoin to the sentence. |
| `Sentences.TextRejoins` | `frontend/src/features/workbench/sentences.ts:27-44` | For any contiguous segmentation the sentences with their white space rejoin to the whole text. |
| `Sentences.UnitLockedIffCovered` | `frontend/src/features/workbench/sentences.ts:36-41` | A unit of a sentence lies in a locked part iff some located range covers it. |
| `Sentences.LockIdsExact` | `frontend/src/features/workbench/sentences.ts:36-42` | The lock ids of a sentence are exactly those of the located ranges that share a unit with it, in range order. |
| `Sentences.OffsetsSpellSentence` | `frontend/src/features/workbench/sentences.ts:42` | The code-point offsets sent to the server cut exactly the sentence, when the segmenter splits no surrogate pair. |
| `Domain.SubmissionStates` | `backend/app/modules/tasks/domain.py:64-82` | An operation starts from a resting, unarchived state on the same side of the first draft as its running state, and its success state is a legal resting successor. |
| `Domain.WhereOperationsStart` | `backend/app/modules/tasks/domain.py:64-82` | The table admits an analysis from draft or analysis-ready, suggestions from analysis-ready or suggestions-ready, a first draft from suggestions-ready and a revision from editing or finalized, and each success leads on. |
| `DocumentFacts.EditKeepsDoc` | `backend/app/modules/tasks/router.py:802-835` | Every accepted edit keeps locks matching their version's text, pairwise disjoint per version and distinctly ordered, and version ids unique. |
| `DocumentFacts.OwnContentAccepted` | `backend/app/modules/tasks/service.py:60-75` | The validator accepts a version's own content against the locks taken from it. |
| `DocumentFacts.DraftedIffOneFirstDraft` | `backend/app/modules/tasks/domain.py:64-75` | In a sound document, editing, revising or finalized (or archived from these) is the same as having exactly one first draft; otherwise there is none. |
| `DocumentFacts.ChainEndsAtDraft` | `backend/app/modules/tasks/router.py:741-751` | Following parents from any version ends at the first draft. |
| `DocumentFacts.EditKeepsDraft` | `backend/app/modules/tasks/router.py:727-754` | No accepted edit, finalize, archive or restore separates a document's state from its first draft. |
| `DocumentFacts.MergeGroup` | `backend/app/modules/tasks/ai_operations.py:225-266` | After a merge the analysis has the fixed rows unchanged, id and content, followed by the new rows. |
| `DocumentFacts.MergeKeeps` | `backend/app/modules/tasks/ai_operations.py:225-266` | A saved merge keeps every fixed row, leaves five to eight suggestions with distinct keys, never more than before once there were some, and does not touch other analyses. |
| `DocumentFacts.MergeCapacityPositive` | `backend/app/modules/tasks/ai_operations.py:194-197` | When the preparation passed, at least one replacement fits. |
| `DocumentFacts.AnalysisRecorded` | `backend/app/modules/tasks/ai_operations.py:135-155` | A saved analysis is the last row and the only selected one, with the reply's text and one above the highest number; earlier rows keep everything else. |
| `DocumentMeans.MergedExact` | `backend/app/modules/tasks/ai_operations.py:226-235` | The kept rows are the selected ones of the analysis in table order; the added ideas are the first of the reply, in order, that repeat no kept key and no kept title, up to eight at first and later to as many as before within five and eight; with more kept than that the surplus is cut from the end. |
| `DocumentMeans.MergeMeans` | `backend/app/modules/tasks/ai_operations.py:236-266` | A merge is saved iff kept and added suggestions are five to eight with pairwise different keys and the row ids are new; then the other rows of the analysis go and the added ones come last, undecided, everything else in place. |
| `DocumentMeans.SnapshotFits` | `backend/app/modules/tasks/ai_queue.py:121-171` | A snapshot is accepted iff its decisions name the selected analysis and exactly the ids of its suggestions. |
| `DocumentMeans.FixedFiltered` | `backend/app/modules/tasks/ai_operations.py:193` | The kept rows are, in order, exactly the rows of the analysis that the decisions select. |
| `QueueInvariant.BaseStep` | `backend/app/modules/tasks/models.py:178-195` | Every step of every client and worker keeps row consistency, one active operation per document and unique keys. |
| `QueueInvariant.BaseAlways` | `backend/app/modules/tasks/models.py:178-195` | In every reachable state a document has at most one active operation and a key names at most one operation, without any proviso. |
| `QueueInvariant.SubmitCases` | `backend/app/modules/tasks/ai_queue.py:42-119` | A submission either changes nothing or queues its operation under an unused id on an idle document of its owner in an allowed state. |
| `QueueAnalyses.AnalysesAlways` | `backend/app/modules/tasks/ai_operations.py:135-155` | In every reachable state the analyses of a document are numbered from one without gaps, and exactly the last one is selected. |
| `QueueAnalyses.OneSelected` | `backend/app/modules/tasks/ai_operations.py:135-155` | So in no run are two analyses of a document selected. |
| `QueueMeans.SubmitMeans` | `backend/app/modules/tasks/ai_queue.py:42-119` | A known key gets its operation, or a refusal for another body; else the operation is queued iff the document is the member's, has no queued or running operation and is in a state its kind starts from, a provider is configured, the decisions fit and the id is new. Only that row, the document's state and the decided suggestions change. |
| `QueueMeans.RetryMeans` | `backend/app/modules/tasks/ai_queue.py:251-266` | A retry submits the stored request of a failed or cancelled operation of the member; every other retry is refused and changes nothing. |
| `QueueMeans.EditMeans` | `backend/app/modules/tasks/router.py:326-898` | For each document request: it succeeds iff the document is the member's, has no queued or running operation and meets the endpoint's own condition, all written out, and what is different afterwards. |
| `QueueMeans.AnswerMeans` | `backend/app/modules/tasks/ai_operations.py:588-625` | A reply is saved iff it is acceptable for its kind (written out per kind), then the operation has succeeded and the document has the reply and the success state; else the operation has failed and the document is back where it was. |
| `QueueMeans.PreparationMeans` | `backend/app/modules/tasks/ai_worker.py:77-106` | The reads before the lease succeed iff every row is there, every suggestion of the analysis has a decision, a regeneration has a row to replace, and a draft has a complete set. |
| `QueueMeans.RecoverMeans` | `backend/app/modules/tasks/ai_operations.py:476-499` | Recovery fails exactly the listed operations and puts their documents back; all others stay. |
| `QueueFifo.FifoStep` | `backend/app/modules/tasks/ai_worker.py:63-75` | One step keeps 'running and picked operations are their member's oldest active ones' iff the operation it enqueues, if any, sorts after the settled ones. |
| `QueueFifo.FifoExact` | `backend/app/modules/tasks/ai_operations.py:564-575` | Over every run and any number of workers, that order holds in all states iff submissions arrive in (created_at, id) order; the lease plays no part. |
| `QueueFifo.LaterIsInOrder` | `backend/app/modules/tasks/ai_queue.py:94` | A submission time later than the member's earlier ones is enough for that condition. |
| `QueueFifo.OneRunning` | `backend/app/modules/tasks/ai_operations.py:524-528` | In such states a member never has two running operations. |
| `QueueFifo.ClaimedInOrder` | `backend/app/modules/tasks/ai_operations.py:564-575` | When a claim starts an operation, everything its member submitted earlier has ended. |
| `QueueAgreement.AgreeStep` | `backend/app/modules/tasks/ai_operations.py:576-690` | From an agreeing state, the next state agrees iff a written result belongs to the only active operation of its document and a clean-up resets only for a queued one. |
| `QueueAgreement.AgreementExact` | `backend/app/modules/tasks/ai_operations.py:576-690` | A run agrees in every state iff every step meets that guard. |
| `QueueAgreement.RunningIffActive` | `backend/app/modules/tasks/ai_queue.py:99-101` | In an agreeing state a document shows a running state iff it has an active operation. |
| `QueueAgreement.AgreeRecover` | `backend/app/modules/tasks/ai_operations.py:476-499` | Recovering any set of active operations leaves no document stuck. |
| `QueueAgreement.AgreeCleanup` | `backend/app/modules/tasks/ai_worker.py:139-163` | A clean-up keeps agreement iff it resets the document only for an operation that is still queued. |
| `QueueDraft.DraftStep` | `backend/app/modules/tasks/ai_operations.py:588-690` | One step keeps 'one first draft exactly in the states that need it' iff a written result stands on the document's side of the first draft. |
| `QueueDraft.DraftExact` | `backend/app/modules/tasks/ai_operations.py:278-347` | Over every run that holds in all states iff every result was written on the right side. |
| `QueueFreeze.LiveMeetsGuards` | `backend/app/modules/tasks/ai_operations.py:588-598` | If results are written only for running operations and clean-ups are justified, both exact conditions hold. |
| `QueueFreeze.CoreFrozenStep` | `backend/app/modules/tasks/router.py:158-173` | Whatever workers and clients do, a step leaves owner, source, settings, locks and final version of a document with an active operation alone and loses no version. |
| `QueueFreeze.CoreFrozenAlong` | `backend/app/modules/tasks/router.py:158-173` | Over every stretch of every run in which an operation stays active, with no proviso, these stay what submission left. |
| `QueueFreeze.FrozenStep` | `backend/app/modules/tasks/router.py:158-173` | In every reachable state a step leaves the whole content of a document with a continuing operation alone iff it is no saved, changing answer of an operation that has ended already. |
| `QueueFreeze.FrozenExact` | `backend/app/modules/tasks/router.py:158-173` | Over every such stretch, every step leaves the content alone iff none is such a late change of that document. |
| `QueueFreeze.FrozenAlong` | `backend/app/modules/tasks/router.py:158-173` | So without a late change of that document its content stays what it was at the start, whatever happens elsewhere. |
| `QueueOrderly.OrderlyExact` | `backend/app/modules/tasks/ai_operations.py:476-690` | Over every run whose new row ids are never used twice: agreement, one first draft, inputs read before the call still current, decisions matching and valid suggestion sets hold in all states iff every step meets the guards of agreement and of the first draft and every saved merge leaves none or at least five. |
| `QueueFreeze.OrderlyAlways` | `backend/app/modules/tasks/ai_operations.py:588-598` | Sufficient, with no assumption on ids: results are written only for running operations and clean-ups are justified. |
| `QueueLocks.VersionsHoldLocks` | `backend/app/modules/tasks/ai_operations.py:365-377` | One step adds at most one version to a document, and it satisfies the locks in force, iff the step does not save a version for an ended operation whose text misses a current lock. |
| `QueueLocks.SavedVersionsHoldLocks` | `backend/app/modules/tasks/ai_operations.py:591-598` | The same for every step of every run, with any number of workers and no proviso. |
| `QueueLocks.LocksReadAlways` | `backend/app/modules/tasks/ai_operations.py:365-377` | In every run, the locks a job has read are those of its document while its operation is active, and a non-empty version list starts with a first draft. |
| `QueueFreeze.RunningIsPrepared` | `backend/app/modules/tasks/ai_service.py:221-227` | For a running operation 'first draft already exists', 'revision without draft', a missing parent and a failed decision lookup are unreachable, and the merge has room. |
| `QueueFreeze.QueuedLookupsSucceed` | `backend/app/modules/tasks/ai_operations.py:806-815` | Every decision lookup by suggestion id succeeds for every active operation. |
| `QueueFreeze.SuggestionsNeverGrow` | `backend/app/modules/tasks/ai_operations.py:225-266` | Once an analysis has suggestions, no step gives it more, except possibly the answer of an operation that has ended already. |
| `QueueOrderly.GrowsExact` | `backend/app/modules/tasks/ai_operations.py:225-266` | In every reachable state a step gives an analysis more suggestions iff it saves a merge whose fixed rows still there and replacements outnumber the present ones. |
| `QueueMerge.LateMergeGroup` | `backend/app/modules/tasks/ai_operations.py:225-266` | A merge on rows that have moved on leaves the fixed rows that are still there, then the new ones, and does not touch other analyses. |
| `QueueMerge.LateMergeValid` | `backend/app/modules/tasks/ai_operations.py:225-266` | What it leaves is at most eight with distinct keys, and a valid set iff it is none or at least five. |
| `QueueOrderly.SuggestionsExact` | `backend/app/modules/tasks/ai_operations.py:225-266` | Over every run whose new row ids are never used twice, every analysis has none or five to eight suggestions with distinct keys in all states iff every saved merge leaves none or at least five. |
| `QueueFreeze.RefusedWritesNothing` | `backend/app/modules/tasks/ai_operations.py:613-625` | A refused answer, in particular an invalid merged set, leaves the document's content as it was. |
| `QueueFreeze.OpsContinue` | `backend/app/modules/tasks/ai_operations.py:476-690` | No step makes an ended operation active or changes its request; new rows come only from submissions under unused ids. |
| `QueueOneWorker.OneWorkerAlways` | `backend/app/modules/tasks/ai_worker.py:52-62` | With a single worker process a run that is calling the provider always owns a running operation. |
| `QueueOneWorker.OneWorkerLive` | `backend/app/modules/tasks/ai_worker.py:60-62` | Then a step is live iff it is neither a shutdown right after the success commit nor an unjustified clean-up. |
| `QueueOneWorker.OneWorkerOrderly` | `backend/app/modules/tasks/ai_operations.py:476-690` | So every run of one worker without those two has all of the above, with no assumption on call durations. |
| `QueueClaims.ClaimsAlways` | `backend/app/modules/tasks/ai_operations.py:564-575` | In every run with any number of workers an operation has at most one claimed run; while it calls, the row is running unless the stale window has passed, and then it has ended without success. |
| `QueueClaims.SuccessExact` | `backend/app/modules/tasks/ai_operations.py:676-690` | In every reachable state, with any number of workers, the next step leaves a recorded success recorded, or its row cleared, iff it is not the shutdown of the run that has just committed it. |
| `QueueSchedule.TimelyFindsRunning` | `backend/app/modules/tasks/ai_operations.py:477-484` | A result written within the stale window of its claim finds the operation running iff the run has not committed its success yet. |
| `QueueSchedule.TimelyLive` | `backend/app/modules/tasks/ai_operations.py:591-598` | So with any number of workers a timely step is live iff it is no late shutdown and no unjustified clean-up. |
| `QueueSchedule.PromptJustified` | `backend/app/modules/tasks/ai_worker.py:119-163` | With any number of workers a clean-up is justified if no step on its operation or its document came since the step that broke its run; steps on anything else do not matter. |
| `QueueSchedule.ManyWorkersOrderly` | `backend/app/modules/tasks/ai_operations.py:476-690` | Any number of workers: timely results, prompt clean-ups and no late shutdown make every state orderly. |
| `QueueSchedule.OneWorkerScheduled` | `backend/app/modules/tasks/ai_worker.py:46-163` | One worker: prompt clean-ups and no late shutdown are enough, however long calls take. |
| `QueueTheorems.RunningIsOldest` | `backend/app/modules/tasks/ai_worker.py:63-75` | Over every run with submissions in order and any number of workers, a running operation precedes everything else its member has active, all of which is queued. |
| `QueueTheorems.ClaimsFollowSubmissions` | `backend/app/modules/tasks/ai_operations.py:564-575` | Over every such run, when a picked operation is about to be claimed, everything its member submitted earlier has ended. |
| `QueueTheorems.NoDocumentStuck` | `backend/app/modules/tasks/ai_queue.py:58-101` | Over every guarded run, a document shows a running state iff it has an active operation, which is the only one and the one it shows. |
| `QueueTheorems.OneFirstDraft` | `backend/app/modules/tasks/ai_service.py:379-387` | Over every run that writes on the right side, a document is drafted iff it has exactly one first draft, otherwise it has no version, and parents lead from every version to that draft. |
| `QueueTheorems.LocksStayValid` | `backend/app/modules/tasks/router.py:802-835` | Over every run, with no proviso, locks match their versions, are disjoint per version and distinctly ordered, and every version passes the check against its own locks. |
| `QueueTheorems.SuggestionSetsStayValid` | `backend/app/modules/ai/dto.py:125-133` | So in every such run every analysis has no suggestions, or five to eight with distinct keys. |
| `QueueBadRuns.CleanupStrandsRunningOperation` | `backend/app/modules/tasks/ai_worker.py:141-148` | A run with two workers in which the clean-up resets a document whose operation another worker is running. |
| `QueueBadRuns.CleanupStrandsNextOperation` | `backend/app/modules/tasks/ai_worker.py:141-148` | The same with a single worker: a failed preparation, a cancel and a new submission before the clean-up, which resets the document of the new operation. |
| `QueueBadRuns.LateSuccessStrandsQueuedOperation` | `backend/app/modules/tasks/ai_operations.py:591-598` | A run in which a recovered operation's late success takes the document away from the operation queued since. |
| `QueueBadRuns.ShutdownUndoesSuccess` | `backend/app/modules/tasks/ai_operations.py:676-690` | A run in which a shutdown records a saved success as cancelled and resets the state, while the result stays. |
| `QueueBadRuns.ShutdownOrphansDraft` | `backend/app/modules/tasks/ai_operations.py:676-690` | Whenever such a shutdown hits a saved first draft, the document has a draft in a state that allows another. |
| `QueueDraftRuns.ShutdownOrphansDraftRun` | `backend/app/modules/tasks/ai_operations.py:676-690` | A run from the empty system that reaches such a document. |
| `QueueDraftRuns.LateSuccessLeavesTwoDrafts` | `backend/app/modules/tasks/ai_operations.py:591-598` | A run from the empty system in which the late success of a recovered first-draft operation leaves a document with two first drafts. |
| `QueueLateRuns.LateAnswerChangesFrozenContent` | `backend/app/modules/tasks/ai_operations.py:591-598` | A run in which the late answer of a recovered operation changes the content of a document while another operation on it is queued. |
| `QueueLateRuns.LateRevisionMissesLock` | `backend/app/modules/tasks/ai_operations.py:591-598` | A run in which the late answer of a recovered revision saves a text that misses a lock created since. |
| `QueueLateRuns.LateMergeLeavesTooFew` | `backend/app/modules/tasks/ai_operations.py:233-245` | A run in which the late answer of a recovered regeneration leaves an analysis with one suggestion. |
| `QueueIdempotency.DeliverAgain` | `backend/app/modules/tasks/ai_queue.py:173-186` | A key that stands for an operation: the same body gets that operation, another body is refused, and neither changes anything. |
| `QueueIdempotency.OneSubmissionOneOperation` | `backend/app/modules/tasks/ai_queue.py:53-57` | A second delivery after any steps short of clearing the history gets the first answer and creates nothing. |
| `QueueIdempotency.ManyDeliveriesOneOperation` | `backend/app/modules/tasks/ai_queue.py:100-109` | For any number of deliveries: after the first answered one all answers are equal and nothing changes; before it nothing changes. |
| `QueueIdempotency.RefusedLeavesNoTrace` | `backend/app/modules/tasks/ai_queue.py:67-81` | A refused submission leaves the state untouched. |
| `QueueService.SuggestionSnapshot` | `backend/app/modules/tasks/ai_queue.py:121-171` | The member's decisions are recorded on the rows of the selected analysis iff they name exactly those rows; otherwise the snapshot is stale. |
| `QueueService.EditedVersion` | `backend/app/modules/tasks/router.py:722-751` | A manual edit is saved iff parent and first draft exist, the task is not archived and the validator finds every lock held. |
| `QueueService.JudgeRevision` | `backend/app/modules/tasks/ai_service.py:262-377` | A revision reply is saved iff draft and parent exist, the locks are held and, for a selection, the outside is kept. |
| `QueueService.InvokeService` | `backend/app/modules/tasks/ai_service.py:211-260` | What each kind of reply leads to: a row to save, or a refusal. |
| `QueueService.ActiveRows` | `backend/app/modules/tasks/ai_worker.py:63-69` | All queued and running rows and no other, strictly by created_at and then id. |
| `QueueService.StaleRows` | `backend/app/modules/tasks/ai_operations.py:476-486` | Exactly the member's running rows that started before the cut-off, each once. |
| `QueueService.Server.Submit` | `backend/app/modules/tasks/ai_queue.py:42-119` | The reply and the new rows are those of the submit step, with every condition written out (`Submitted`). |
| `QueueService.Server.RetryOperation` | `backend/app/modules/tasks/ai_queue.py:251-266` | Submits the stored request of a failed or cancelled operation of the member; any other is refused and nothing changes. |
| `QueueService.Server.Cancel` | `backend/app/modules/tasks/ai_queue.py:233-249` | Cancels iff the operation is the member's and queued; the document goes back to where the operation found it if it still shows it; nothing else changes. |
| `QueueService.Server.ClearHistory` | `backend/app/modules/tasks/ai_queue.py:224-231` | Removes exactly the member's ended rows. |
| `QueueService.Server.CreateManualEdit` | `backend/app/modules/tasks/router.py:715-754` | A version is saved iff the document is the member's, idle, not archived, has the parent and a first draft, the text holds every lock and the id is new; the document is then editing. |
| `QueueService.Server.CreateLockRow` | `backend/app/modules/tasks/router.py:790-835` | A lock is created iff the document is the member's, idle and not archived, the version exists, the range is not empty and inside it, the id is unused and every lock of that version ends before the range or starts after it; adjoining ranges are accepted. The new row has the range, its text and the next order index. |
| `QueueService.Server.DeleteLockRow` | `backend/app/modules/tasks/router.py:838-856` | A lock is deleted iff the document is the member's and idle and has it; the other locks stay in order. |
| `QueueService.Server.FinalizeVersion` | `backend/app/modules/tasks/router.py:880-898` | A version is finalized iff the document is the member's, idle and not archived and has it, from any other state, finalized included. |
| `QueueService.Server.ArchiveTask` | `backend/app/modules/tasks/router.py:357-376` | An idle document of the member is archived, its earlier state stored; an archived one stays as it is. |
| `QueueService.Server.RestoreTask` | `backend/app/modules/tasks/router.py:380-402` | An idle document of the member is restored iff it is archived with a stored state, to that state. |
| `QueueService.Server.UpdateDraftRow` | `backend/app/modules/tasks/router.py:326-341` | Source and settings are replaced iff the document is the member's, idle and a draft. |
| `QueueService.Server.UpdateAnalysisRow` | `backend/app/modules/tasks/router.py:431-456` | The payload of the named analysis, and nothing else, is replaced iff the document is the member's and idle and has it. |
| `QueueService.Server.UpdateSuggestionRow` | `backend/app/modules/tasks/router.py:525-550` | Decision and note of the named suggestion, and nothing else, are replaced iff the document is the member's and idle and has it. |
| `QueueService.RestoreUndoesArchive` | `backend/app/modules/tasks/service.py:28-38` | Archiving a document and restoring it gives it back unchanged. |
| `QueueService.Server.RecoverStaleOperations` | `backend/app/modules/tasks/ai_operations.py:476-499` | Fails exactly the member's operations that have been running for more than 720 seconds, puts their documents back and changes nothing else; it is one recovery step. |
| `QueueService.Server.StartFirst` | `backend/app/modules/tasks/ai_worker.py:70-75` | The `seen` loop picks the first row of every member that was not seen before and starts a job for it. |
| `QueueService.Server.Schedule` | `backend/app/modules/tasks/ai_worker.py:63-75` | Starts a job, in its first phase, for exactly the members with work, none running and no job of this worker: their oldest active operation. |
| `QueueService.Server.TickOnce` | `backend/app/modules/tasks/ai_worker.py:46-75` | A tick recovers exactly the members that have a running operation and no job of this worker, then schedules once. |
| `QueueService.Server.PrepareRun` | `backend/app/modules/tasks/ai_worker.py:77-106` | Drops the job iff its operation is gone or no longer queued; else it has read the document iff the preparation holds, and is broken otherwise. |
| `QueueService.Server.ClaimOperation` | `backend/app/modules/tasks/ai_operations.py:511-575` | Claims, with the current time, iff the operation is still queued, a provider is configured and the document shows it; otherwise no row changes and the job is dropped or broken. |
| `QueueService.Server.SaveAnswer` | `backend/app/modules/tasks/ai_operations.py:588-625` | What an answer does to the operation, its document and the job, per kind of request (`Answered`): after a saved analysis exactly the new row is selected. |
| `QueueService.Server.RecordEnd` | `backend/app/modules/tasks/ai_operations.py:659-690` | Failure and cancellation put the document back to the initial state and end the row, whatever its status. |
| `QueueService.Server.HandleRunError` | `backend/app/modules/tasks/ai_operations.py:631-657` | A saved success is kept; otherwise a failure is recorded. |
| `QueueService.Server.HandleCancellation` | `backend/app/modules/tasks/ai_operations.py:626-630` | A claimed run is recorded as cancelled, even after its success commit; earlier phases just stop. |
| `QueueService.Server.CleanUp` | `backend/app/modules/tasks/ai_worker.py:119-163` | The document goes back if it shows the operation, whatever the row's status; the row fails if it is queued; nothing else changes. |
| `QueueService.PickedOldest` | `backend/app/modules/tasks/ai_worker.py:63-75` | In submission order the first row of a member is its oldest active operation. |
| `Leases.MemberAiCallLock.Acquire` | `backend/app/modules/tasks/ai_lock.py:61-75` | Granted iff no unexpired key exists; then the key carries the token for one lease; other members' keys are untouched. |
| `Leases.MemberAiCallLock.Release` | `backend/app/modules/tasks/ai_lock.py:27-48` | Removes a key only if it carries the caller's token. |
| `Leases.InMemoryMemberAiCallLock.Acquire` | `backend/app/modules/tasks/ai_lock.py:98-104` | Granted iff the member holds no token. |
| `Leases.InMemoryMemberAiCallLock.Release` | `backend/app/modules/tasks/ai_lock.py:106-109` | Removes only the caller's own token. |
| `Leases.FallbackAgrees` | `backend/app/modules/tasks/ai_lock.py:91-109` | While no lease has expired the fallback gives Redis's answers and holds the same tokens. |
| `Leases.OneUnexpiredHolder` | `backend/app/modules/tasks/ai_lock.py:61-75` | In every run at most one run of a member holds an unexpired lease. |
| `Leases.LateReleaseHarmless` | `backend/app/modules/tasks/ai_lock.py:27-48` | A release, however late or repeated, leaves every other unexpired holder's lease in force. |
| `Leases.CallsApartExact` | `backend/app/core/ai_limits.py:3-7` | Calls that start within `delay` of the lease and last at most `limit` never overlap in any run iff delay + limit is less than the lease. |
| `Leases.UnderAMinuteApart` | `backend/app/core/ai_limits.py:5-6` | With the configured constants, under sixty seconds from lease to call keeps a member's calls apart. |
| `Leases.StaleMeansExpired` | `backend/app/modules/tasks/ai_operations.py:477-484` | Whenever stale recovery fires, the claim's lease expired over a minute before and blocks nobody; the call is over unless it began two minutes after the claim. |
| `RateLimit.InMemoryLoginRateLimiter.Check` | `backend/app/modules/identity/rate_limit.py:96-121` | Counts the check for its pair, its address and its user name, each in its own window, and refuses iff the pair's new count exceeds the pair limit, the address's the address limit or the user name's the user-name limit; the delay is the least that covers the keys that are over. |
| `RateLimit.InMemoryLoginRateLimiter.Tally` | `backend/app/modules/identity/rate_limit.py:105-114` | The loop over the three keys touches exactly their buckets and collects counts and delays. |
| `RateLimit.PurgeInvisible` | `backend/app/modules/identity/rate_limit.py:101-104` | Under a clock that never goes back, no sequence of checks tells the purging limiter from one that never purges. |
| `RateLimit.BurstBound` | `backend/app/modules/identity/rate_limit.py:107-121` | Per key, any half-open interval of one window length holds at most twice the limit minus one accepted checks, and none for a limit below one. |
| `RateLimit.BurstBoundPerKey` | `backend/app/modules/identity/rate_limit.py:115-121` | With the three limits written out: such an interval holds none if a limit is below one, else at most twice the address's limit minus one, twice the user name's minus one, and for a pair twice the least of the three minus one. |
| `RateLimit.BurstReached` | `backend/app/modules/identity/rate_limit.py:107-114` | For each kind of key and whatever the three limits, a run under a steady clock reaches exactly that bound. |
| `RateLimit.WaitingSuffices` | `backend/app/modules/identity/rate_limit.py:114-121` | With limits of at least one, a refused caller who waits the returned delay with no check in between is accepted. |
| `BrowserQueue.QueueStore.Accept` | `frontend/src/shared/stores/queue.ts:22-30` | The row comes first, the others follow in order without its older version, the revision rises by one; the task's update and the notice are set iff the first row with its id was under way and the new one is not. |
| `BrowserQueue.QueueStore.RefreshReply` | `frontend/src/shared/stores/queue.ts:32-50` | Only under its own run and revision an answer replaces the list; per task the last row that ended is its update, and the last one of all is the notice. |
| `BrowserQueue.QueueStore.Schedule` | `frontend/src/shared/stores/queue.ts:52-55` | Schedules the next poll only for the current run of a logged-in member. |
| `BrowserQueue.QueueStore.Stop` | `frontend/src/shared/stores/queue.ts:57-60` | Clears everything shown and raises generation and revision by one. |
| `BrowserQueue.QueueStore.Start` | `frontend/src/shared/stores/queue.ts:62-66` | Does nothing for the same member; otherwise resets and starts one polling chain for a non-empty one. |
| `BrowserQueue.QueueStore.SubmitReply` | `frontend/src/shared/stores/queue.ts:68-73` | Under the run it was sent under it puts the operation first and opens the list; otherwise nothing changes. |
| `BrowserQueue.QueueStore.ControlReply` | `frontend/src/shared/stores/queue.ts:75-85` | Accepts or reports an error under its own run only, and frees the action slot. |
| `BrowserQueue.QueueStore.ClearReply` | `frontend/src/shared/stores/queue.ts:87-103` | Exactly the rows under way stay, in order; the updates of tasks with a finished row go, and a notice of a finished row. |
| `BrowserQueue.ShowsOnlyCurrentMember` | `frontend/src/shared/stores/queue.ts:57-66` | In every run all rows, updates and the notice belong to the current member. |
| `BrowserQueue.OnePollingChain` | `frontend/src/shared/stores/queue.ts:52-66` | In every run there is exactly one live link of a polling chain while someone is logged in, and none otherwise. |
| `BrowserQueue.RevisionWitness` | `frontend/src/shared/stores/queue.ts:29` | The revision is unchanged exactly when no acceptance, stop or change of member happened. |
| `BrowserQueue.PollAppliedIffUndisturbed` | `frontend/src/shared/stores/queue.ts:33-37` | A poll's rows replace the list iff nothing of that kind happened since it was sent; otherwise nothing shown changes. |
| `BrowserQueue.AcceptedStays` | `frontend/src/shared/stores/queue.ts:28-37` | A just accepted operation stays listed whatever answers to earlier polls arrive, short of a stop, a change of member, a clear or a later poll. |
| `BrowserQueue.EndsAreReported` | `frontend/src/shared/stores/queue.ts:38-44` | Every operation shown as active that the answer shows as ended is reported for its task with a row of that answer. |
| `BrowserQueue.ClearedRowsReturnIff` | `frontend/src/shared/stores/queue.ts:93-99` | Clearing does not raise the revision. For a poll sent before a successful clear and answered after it, in any run: the clear removes every finished row, and the answer brings finished rows back iff nothing disturbed the store from the sending to the answer and the answer carries one that is not shown. |
| `BrowserQueue.ClearedRowReturns` | `frontend/src/shared/stores/queue.ts:93-99` | A run from the initial store in which a cleared row comes back. |
| `Client.ApiRequest` | `frontend/src/shared/api/client.ts:51-104` | One attempt without the idempotent policy, up to three with it; an attempt is repeated only after 408, 429, a status of 500 or more, or a lost or unreadable answer that the caller did not abort; the last one decides, and 401 is signalled iff some attempt met it. |
| `Client.SubmissionNamesOneOperation` | `frontend/src/shared/api/client.ts:59-104` | If the loop returns an operation, every answered delivery of the submission names that same one, and it has the submitted body. |

## Left out

- The provider's HTTP call, prompts and response parsing: a reply is an arbitrary text, list of suggestions or failure; a blank or unparsable reply is a failure.
- SQLAlchemy, PostgreSQL, Redis and FastAPI mechanics: each committed transaction is one atomic step over maps; the outcome of a commit is known; Redis neither loses nor adds keys.
- Checks that a suggestion refers to issues of its analysis: a failed check is one of the arbitrary failures of a reply.
- Request hashing: two bodies have the same hash iff they are equal.
- Order of checks when several refusals apply to one document request (a missing version is looked up before the active-operation check): the refusals themselves are modelled, a refused request changes nothing in either order.
- The lease inside the queue machine: `LeaseBusy` stands for any refused acquisition, and the lease protocol has its own machine; whether a claimed run ends within the stale window is a condition on runs there, not a consequence.
- Several clocks: one clock stamps submissions, claims, leases and recovery; submission times are arbitrary in the queue machine.
- The synchronous branch of `_execute`, which no route reaches.
- Refusal of blank manual-edit content by the request schema; the white space it strips is any set of code points.
- Suggestion titles are compared after stripping: the model's title is the stripped title.
- Locator.ClientRefinesServer: speaks of the text as typed, and requires lock texts that are whole code points at both ends, because `Locator.PlacedMeansHeldIffWhole` shows the claim false for the others; `StrippedEdits` states it for the stripped content the endpoint checks.
- QueueOrderly.OrderlyExact: assumes that ids drawn for new suggestion rows are not those of rows some job has read; identifiers are random in the code and never used twice.
- QueueFreeze.OrderlyAlways: a sufficient condition only; the exact one is `QueueOrderly.OrderlyExact`.
- A document request loads its task before it takes the row lock, and the lock query reads the id only (backend/app/modules/tasks/router.py:158-159 and 357-376): its copy of the state may be stale, so an archive that waits for a finishing operation could store a running state. The model makes each request one atomic step.
- RateLimit.WaitingSuffices: whole-millisecond times; rounding of floating-point clocks is not modelled.
- The Redis login limiter and its time-to-live rounding.
- `Intl.Segmenter` and `trim`: any contiguous split and any set of white-space units.
- Vue pages, routing, telemetry, the delays between attempts, version comparison, presets, provider settings and member administration: they would only add easy members.
- Database migrations and deployment.
