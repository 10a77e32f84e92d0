# Verified model of the mxlrcgo-svc work queue

A Dafny model of the service's durable work queue, the scan ledger it must agree with, the lyrics
cache, and the drivers around them: the worker, the scan enqueuer, the one-shot loop, the backoff
formula and the Jaro-Winkler similarity. `dafny verify dfyconfig.toml` checks all of it.

## How it is built

- `Schema` holds the tables as values (`work_queue`, `scan_results`, their junction and
  `lyrics_cache`) and the consistency invariant. `Transactions` gives every database transaction as
  a function on them. Foreign keys are enforced and there is one connection
  (internal/db/db.go:56, internal/db/db.go:72), so each transaction is one atomic step; `Step` and
  `Exec` are one step and a whole interleaved run.
- `Tables` holds the same transactions as methods of classes that update the tables in place. The
  contract of each method equates the tables after it with the transaction function, so whatever
  is proved about the functions holds of the methods.
- `Invariant`, `Runs`, `History`, `Clearing`, `Ledger`, `Cache` and `Ordering` prove properties of
  steps and of all runs.
- `Turns` gives one turn of the worker as a function of the tables, the worker's counters and
  everything the outside answers; `Decisions` reads off the tables and those answers what a turn
  does, `Circuit` and `Draining` prove what holds over many turns, and `Worker` is the worker as an
  object. A turn is several transactions, so `Completions` takes it apart into small steps, lets
  transactions of other actors come between any two of them, and shows that a turn is one such run.
- `Enqueueing` bridges from the scan results to the queue, and `Pipeline` joins it to `Draining`.
  `OneShot`, `Backoff` and `Normalize` (over `Selection`, with two scores computed in
  `WorkedScores`) cover the rest.

Rows of the table marked as remarks read one definition in the system's terms; the others are results.

The outside world is a parameter of every method and lemma that meets it: clock readings, fetch,
verification and write outcomes, cancellation, and which database calls fail. The normalization of
artist and title is an arbitrary total function. Clock readings are nanoseconds; stored times are
floored to seconds. Scores are exact reals. An empty `outputPaths` stands both for the empty column
text and for an empty list, which the code treats alike.

## Findings

- A fallback lookup promises the most recently updated entry (internal/cache/cache.go:42-46). Times
  have whole seconds and ties go to the greater id, while an overwrite keeps its id
  (internal/cache/cache.go:61-78). So an old entry overwritten in the second in which a younger one
  was written is not found. `Cache.StoreThenFallback` gives the exact condition,
  `Cache.OverwriteCanStayHidden` an input.
- A completion marks every scan result ever collapsed into the row done
  (internal/queue/queue.go:249-293, `Runs.NoScanResultIsLost`), but the destinations written are
  those the row had when it was claimed. An enqueue replaces them when it meets the row pending or
  failed, and drops its own when it meets the row claimed (internal/queue/queue.go:162-165); it
  links its scan result either way (internal/queue/queue.go:206-214). So a scan result can be marked
  done although its destination was not written. `History.CollapsedFileKeepsItsPathsIff` says
  exactly when it was, for every run; `History.CollapsedFileCanLoseItsPath` gives two runs, one for
  each way, in which it was not.
- Releasing a claimed row restores the tables only if the row was pending: a failed row comes back
  pending and without its error (internal/queue/queue.go:295-313, `Ledger.ReleaseUndoesClaim`).

## Model

| member | source | states |
|---|---|---|
| Invariant.StepKeepsInv | internal/queue/queue.go:115-520 | every transaction keeps keys unique and equal to the normalized artist and title, completion time set iff done, failed rows with at least one attempt, errors only on failed or processing rows, destinations nonempty, links referentially sound and including each row's own link |
| Invariant.ReachableIsConsistent | internal/db/migrations/010_work_queue_scan_results.sql:3-13 | that consistency holds after every run of interleaved transactions from an empty database |
| Invariant.LookupExact | internal/db/migrations/004_work_queue_backoff.sql:39-40 | at most one row has given keys, and the conflict target of an enqueue is that row |
| Runs.ClaimIsExclusive | internal/queue/queue.go:222-247 | from claim to settlement, under any interleaving, a row keeps its payload and no other dequeue returns it |
| Runs.ClaimedCopyStaysAccurate | internal/queue/queue.go:141-185 | the item a dequeue hands out still reads the same at any later point before its settlement, up to the own scan link |
| Runs.DoneIsFrozen | internal/queue/queue.go:141-185 | done rows stay done with payload and completion time frozen in every run that does not clear done rows |
| Runs.BackoffIsRespected | internal/queue/queue.go:356-376 | a row failed for the n-th time at t is not dequeued before the floor of t plus the n-th wait (less than a second early at most) unless it is retried by id or enqueued at webhook priority |
| Runs.FailedRowIsDueAfterItsWait | internal/queue/queue.go:337-385 | a failure counts one attempt, records the cause and changes nothing else, and the row is due again iff the wait for that many failures is over |
| Runs.WaitEnds | internal/queue/queue.go:356-376 | over any run, until it is claimed, deleted, retried or enqueued at webhook priority, a failed row is ready exactly once its wait is over |
| Runs.LinksAreHistory | internal/queue/queue.go:206-214 | in every run, row and scan result are linked iff both still exist and some accepted enqueue carrying the result landed on the row |
| Runs.NoScanResultIsLost | internal/queue/queue.go:249-293 | completing stamps the row and marks exactly the still existing results ever enqueued onto it done, together with the row or not at all, and changes nothing else |
| Runs.PriorityIsGreatest | internal/queue/queue.go:166-171 | a live row's priority is the greatest with which it was ever enqueued |
| Runs.AttemptsCountFailures | internal/queue/queue.go:356-376 | a live row's attempts count its failures since insertion or its last successful retry |
| Runs.IdsNeverReused | internal/db/migrations/001_initial.sql:32-42 | no step revives a deleted row or scan result id |
| Runs.EnqueueOutcome | internal/queue/queue.go:110-219 | column by column: which requests are rejected, what a new row holds, what a met row of each status takes and keeps, which link is added, and that nothing else changes |
| Ledger.ReleaseUndoesClaim | internal/queue/queue.go:295-313 | release right after claim restores the tables iff the row was pending; a failed row comes back pending without error |
| Ledger.CleanupFreesTheKeys | internal/queue/queue.go:315-335 | exactly the pending or failed row with the keys goes, with its links; the next enqueue of the keys inserts a new row or meets a claimed or done one |
| Ledger.ClearDoneReopensKeys | internal/queue/queue.go:506-520 | exactly the done rows go, and their keys then start from a new row |
| History.PayloadIsLast | internal/queue/queue.go:141-165 | in every run, a live row has the payload of the last enqueue that inserted it or met it retryable, and of that enqueue's destinations, in order, those that no later cancel dropped |
| History.CollapsedFileKeepsItsPathsIff | internal/queue/queue.go:162-165 | completing a claim marks every result enqueued onto the row, before the claim or during it, done; a destination of such an enqueue is among those the worker was handed iff the last enqueue before the claim that inserted the row or met it retryable has it and no cancel has dropped it since |
| History.CollapsedFileCanLoseItsPath | internal/queue/queue.go:206-214 | two runs from empty tables with two scanned files, each ending in a completion that marks both results done while one destination was never handed to the worker: replaced by the second enqueue, or enqueued during the claim |
| Ledger.RescanKeepsOutcomes | internal/scan/repository.go:32-61 | a rescan loses no result, touches no other library, and without force keeps every recorded status |
| Ledger.RescanRecordsReports | internal/scan/repository.go:42-86 | after a rescan every reported file shows its last report; the status is the reported one iff forced or the file is new |
| Ledger.SetStatusOutcome | internal/scan/repository.go:270-308 | exactly the named results are marked, or nothing if one is missing or the status is unsupported |
| Clearing.CancelOutcome | internal/queue/queue.go:560-569 | a cancel touches only pending and failed rows linked to the library, deletes exactly those with no destination asked for elsewhere, and leaves survivors exactly the destinations that are, never empty; ledger, cache and the links of surviving rows stay |
| Clearing.CancelCounts | internal/queue/queue.go:642-718 | the two reported numbers count exactly the rows that disappear and the rows that change |
| Clearing.ScanClearOutcome | internal/commands/commands.go:1473-1492 | column by column: which results, rows and links a scan clear removes, and which destinations and own links surviving rows keep |
| Clearing.FilterSelects | internal/queue/queue.go:653-658 | the surviving destinations are the kept entries in their old order |
| Clearing.OtherRowsUntouched | internal/queue/queue.go:641-646 | handling some candidates changes neither keep set nor candidacy of another |
| Clearing.CancelIdempotent | internal/queue/queue.go:606-720 | a second cancel deletes nothing, updates nothing and changes nothing |
| Clearing.ClearOneMore | internal/commands/commands.go:1473-1492 | clearing one more library after a set of them equals clearing the larger set at once |
| Clearing.ClearEachIsClearSet | internal/commands/commands.go:1473-1492 | clearing libraries one after another, with any repetition, equals clearing their set in one go |
| Clearing.ClearOrderIrrelevant | internal/scan/repository.go:237-254 | the order of clearing never matters |
| Clearing.ClearCommutes | internal/queue/queue.go:606-748 | clearing A then B reaches the same tables as B then A, in every state |
| Ordering.BeforeIsStrictOrder | internal/queue/queue.go:225-236 | the claim order is a strict total order on rows |
| Ordering.NextIsUnique | internal/queue/queue.go:228-234 | a dequeue finds a row iff one is ready, and exactly one row qualifies |
| Ordering.NextIsFirstDue | internal/queue/queue.go:221-236 | a dequeue claims a row iff, by the columns, it is due, of the greatest priority among the due rows, the oldest of those, and first inserted of those; it claims none iff none is due |
| Cache.LatestIsUnique | internal/cache/cache.go:42-59 | a fallback lookup finds an entry iff there is one, and only one qualifies |
| Cache.LatestIsMostRecent | internal/cache/cache.go:42-59 | a fallback lookup finds an entry iff, by the columns, none for the artist and title was updated later, nor at the same time under a greater id |
| Cache.StoreThenFallback | internal/cache/cache.go:42-78 | a fallback lookup finds the entry just stored iff no other album's entry is at least as recent |
| Cache.FreshStoreIsLatest | internal/cache/cache.go:42-78 | with a clock that has not gone back, a new entry is always found |
| Cache.OverwriteCanStayHidden | internal/cache/cache.go:42-46 | for every normalizer that keeps the two album names apart, an overwrite that a fallback lookup does not find |
| Tables.DBQueue.Enqueue | internal/queue/queue.go:110-219 | the upsert transaction: new tables, returned item, and rejection of a dangling scan link |
| Tables.DBQueue.Dequeue | internal/queue/queue.go:221-247 | claims the first due row, as above, changing only its status, or reports that none is due and changes nothing |
| Tables.DBQueue.Complete | internal/queue/queue.go:249-293 | row and linked results done together, or an error and no change |
| Tables.DBQueue.Release | internal/queue/queue.go:295-313 | returns a claimed row to pending, or an error and no change |
| Tables.DBQueue.Cleanup | internal/queue/queue.go:315-335 | removes the at most one retryable row with the keys and reports how many |
| Tables.DBQueue.Fail | internal/queue/queue.go:337-385 | records the failure with the closed-form backoff computed by the bounded doubling loop |
| Tables.DBQueue.Retry | internal/queue/queue.go:443-504 | resets a failed row, and tells a missing row from one that is not failed |
| Tables.DBQueue.ClearDone | internal/queue/queue.go:506-520 | removes exactly the done rows and counts them |
| Tables.DBQueue.CancelRow | internal/queue/queue.go:642-718 | one loop iteration on the tables as earlier iterations left them equals its share of the one-shot cancel |
| Tables.DBQueue.CancelByLibrary | internal/queue/queue.go:560-720 | the candidate loop equals the one-shot cancel, and the dry run reports the same pair without writing |
| Tables.Repo.Upsert | internal/scan/repository.go:42-86 | all reports stored or, if one has an unsupported status, an error and no change |
| Tables.Repo.ListPendingByLibrary | internal/scan/repository.go:113-138 | exactly the pending results of the library in ascending id order |
| Tables.Repo.SetStatus | internal/scan/repository.go:270-308 | all ids updated or, if one is missing or the status is unsupported, none |
| Tables.Repo.ClearByLibrary | internal/scan/repository.go:220-254 | removes exactly the library's results, with cascades, and counts them |
| Tables.CacheRepo.LookupFallback | internal/cache/cache.go:42-59 | the text of the most recent entry for artist and title, or no row |
| Tables.CacheRepo.Store | internal/cache/cache.go:61-78 | the upsert of a cache entry |
| Tables.RunScanClear | internal/commands/commands.go:1429-1496 | confirmed, it removes exactly what the unconfirmed run reports, in one transaction; unconfirmed, it changes nothing |
| Enqueueing.ScanInputs | internal/scan/enqueuer.go:101-125 | the request of a scan result; refused iff it has neither path nor destination |
| Enqueueing.HandlingSettles | internal/scan/enqueuer.go:60-92 | a handled result is done with cached keys and no new link, or processing and linked to a row with its keys that is not done; that row, unless claimed, asks for exactly the result's file at no less than the enqueuer's priority |
| Enqueueing.HandledServes | internal/scan/enqueuer.go:86-125 | a new, pending or failed row takes the result's source path and its one destination, with directory and file name as recorded or else derived from the path; a claimed row keeps its payload; the priority is the greater one |
| Enqueueing.HandlingLeavesOthers | internal/scan/enqueuer.go:60-92 | handling one result disturbs neither another result's columns and links nor any live row |
| Enqueueing.HandledRows | internal/scan/enqueuer.go:60-92 | handling a result keeps every row with its keys, and adds or changes a row only if the result's keys are not cached and are that row's |
| Enqueueing.Enqueuer.HandleOne | internal/scan/enqueuer.go:60-92 | a handled result has exactly its transactions applied; a failed enqueue leaves the tables as they were unless the restore fails too |
| Enqueueing.Enqueuer.EnqueuePending | internal/scan/enqueuer.go:39-94 | a finished pass settles every formerly pending result; a stopped one leaves the failing result (if restored) and all later ones as they were; either way exactly the rows with the keys of handled uncached results may change, and each asks for the file of the last such result at the stated priority |
| Turns.TurnSettles | internal/worker/worker.go:187-253 | a turn settles the row it claims exactly once as done, failed or pending and touches no other row; done means all destinations written and key cached |
| Decisions.TurnDecides | internal/worker/worker.go:171-253 | from the columns and the outside's answers alone: when a turn claims nothing, which row it claims, that row's final status (also when settling calls fail), the new cache entry with the fetched song, the destinations written and how the turn returns |
| Decisions.OnlyVettedIsStored | internal/worker/worker.go:240-253 | a turn that changes the cache with a verifier, a source path and a mean similarity below the threshold had its song accepted |
| Decisions.VerdictOnlyMattersIfNeeded | internal/worker/worker.go:240-253 | a turn that fetches no song, or one with no verifier, no source path or a mean similarity of at least the threshold, is the same whatever the verdict |
| Turns.TurnKeepsInv | internal/worker/worker.go:171-238 | whatever the outside answers and whichever call fails, a turn keeps the tables consistent |
| Completions.TurnKeeps | internal/worker/worker.go:195-237 | a turn keeps every done row's key cached, whatever the outside answers and whichever call fails |
| Completions.SystemKeepsDoneCached | internal/worker/worker.go:187-237 | in every run from an empty database, with transactions of other actors between any two of the worker's, the tables are consistent, every done row's key has a cache entry, and the row the worker holds is still claimed as it was handed out |
| Completions.InterleavedCompletionIsCached | internal/worker/worker.go:207-236 | whenever in such a run the worker comes to complete its item, the completion succeeds, the completed row's keys are cached, and its destinations are those the worker wrote |
| Completions.TurnIsSteps | internal/worker/worker.go:171-238 | every turn, whatever the outside answers and whichever calls fail, is a run of those small steps that starts and ends without a held item |
| Circuit.TripOpensCircuit | internal/worker/worker.go:290-308 | exactly a refused fetch trips the circuit, even if the release fails, changing no attempts, next attempt or failure counter |
| Turns.TurnCountsFailures | internal/worker/worker.go:227-236 | whichever calls fail, the failure counter is reset by a completion, kept by an idle or tripped turn, and raised by one otherwise |
| Circuit.OpenCircuitIsQuiet | internal/worker/worker.go:176-186 | after a trip at t no call before t plus the open duration claims, fetches or changes anything, whatever happens to the tables in between |
| Draining.CalmTurn | internal/worker/worker.go:171-238 | a turn takes the first ready row, and only it, out of the ready rows |
| Draining.LoopStopsAtFirst | internal/worker/worker.go:135-169 | the loop goes on exactly as long as turns end processed, stops for the reason of the first that does not, and leaves tables and counters as its last turn did |
| Draining.DrainsInOrder | internal/worker/worker.go:135-169 | with a frozen clock and no failing queue call the loop claims the ready rows once each in claim order, stops early only on an open circuit, and takes at most one turn more than there are ready rows |
| Draining.DrainSettles | internal/worker/worker.go:135-169 | under the same conditions every claimed row ends as its turn settled it, every other row and link is untouched, and exactly the scan results linked to rows that ended done become done |
| Draining.FaultlessDrainCompletes | internal/worker/worker.go:135-169 | without faults and with the circuit closed, enough turns leave every row that was ready, and every scan result linked to one, done |
| Pipeline.PendingBecomesDone | internal/scan/enqueuer.go:39-94 | after a finished enqueuer pass and a drain without faults every formerly pending scan result is done, unless it is linked to a row that was claimed by another or not yet due |
| Worker.Worker.RunOnce | internal/worker/worker.go:171-238 | the turn, with its early returns, as in the turn function |
| Worker.Worker.Run | internal/worker/worker.go:135-169 | the loop's tables, counters, claims and reason for stopping |
| Worker.Worker.ResolveSong | internal/worker/worker.go:255-277 | exact lookup, fallback lookup, then the fetcher, which is asked iff both find nothing; a hit decodes the exact entry, or else the most recent one |
| Worker.Worker.Vetted | internal/worker/worker.go:240-253 | a song passes iff there is no verifier or source path, the mean of the two similarities reaches the threshold, or it was accepted |
| Worker.Worker.WriteAll | internal/worker/worker.go:219-225 | writes the destinations in order up to the first failing one |
| Normalize.MatchedSymmetric | internal/normalize/normalize.go:58-69 | swapping the strings transposes the matching |
| Normalize.MatchingUnique | internal/normalize/normalize.go:58-69 | the greedy result is the only matching in which no pair has an earlier available partner on either side |
| Normalize.MatchedAreNear | internal/normalize/normalize.go:48-69 | matched runes are equal, at the same position or at a distance d with 2d + 2 at most the longer length, and neither has an earlier partner |
| Normalize.NearAreMatched | internal/normalize/normalize.go:48-69 | conversely all such runes without an earlier partner are matched |
| Normalize.PrefixMatchesItself | internal/normalize/normalize.go:93-102 | every position of a common prefix is matched to itself |
| Normalize.MatchedRunesPermute | internal/normalize/normalize.go:58-69 | the matched runes of the two strings are permutations of each other |
| Normalize.FlagsSwap | internal/normalize/normalize.go:54-69 | swapping the strings swaps the two flag arrays exactly |
| Normalize.ScoreSymmetric | internal/normalize/normalize.go:37-104 | match count, transposition count, prefix length and score do not depend on the argument order |
| Normalize.TranspositionsNeverOne | internal/normalize/normalize.go:75-88 | transpositions never exceed matches and are never exactly one |
| Normalize.PrefixIsMatched | internal/normalize/normalize.go:71-102 | the matched runes start with the common prefix, transpositions lie after it, and the early return never discards a prefix bonus |
| Normalize.ScoreRange | internal/normalize/normalize.go:26-34 | the score is 1 iff the strings are equal, 0 iff they differ without a match, and otherwise strictly between 1/6 and 1 |
| Normalize.PrefixIsLongest | internal/normalize/normalize.go:92-102 | the counted prefix is the longest common one, but for the limit of four runes |
| Normalize.ScoreMeans | internal/normalize/normalize.go:90-104 | the score in terms of matches, transpositions (each half a match) and the prefix (a tenth of the way to one per rune) |
| WorkedScores.PartnersAreMatched | internal/normalize/normalize.go:54-69 | the greedy list of partners, row by row, holds exactly the matched pairs |
| WorkedScores.ScoreOfMirrored | internal/normalize/normalize.go:37-104 | "abc" and "cba" score 5/9 |
| WorkedScores.ScoreOfTransposed | internal/normalize/normalize.go:37-104 | "MARTHA" and "MARHTA" score 173/180 |
| Normalize.MatchRunes | internal/normalize/normalize.go:54-69 | the in-place greedy pass computes exactly the flags and count of the matching |
| Normalize.CountTranspositions | internal/normalize/normalize.go:75-88 | the second pass stays inside the array and counts the positions at which the matched runes differ |
| Normalize.JaroWinkler | internal/normalize/normalize.go:35-104 | the algorithm computes the score defined from the matching |
| Normalize.ConfidenceIsSimilarity | internal/normalize/normalize.go:26-33 | confidence is symmetric, in the unit interval, and 1 iff the normalized texts agree |
| Selection.PermutationsNeverDifferOnce | internal/normalize/normalize.go:75-88 | two permutations of each other never differ at exactly one position |
| Backoff.Geometric | internal/backoff/backoff.go:16-37 | the 64-bit doubling loop equals the capped closed form without overflow, and its number of doublings is bounded by the cap |
| Backoff.WaitMonotone | internal/backoff/backoff.go:16-37 | more failures never shorten the wait |
| Backoff.WaitIsTheDoubling | internal/backoff/backoff.go:16-37 | every sequence that starts with the base (or the smaller cap) and doubles up to the cap is the sequence of waits |
| OneShot.InputsQueue.Pop | internal/queue/queue.go:52-61 | removes and returns the front item, or reports an empty queue |
| OneShot.App.Run | internal/app/app.go:50-95 | written and failed items are, in input order, exactly the successes and the rest, and together the inputs; pauses follow the current run of failed fetches |
| OneShot.App.AttemptNext | internal/app/app.go:58-91 | one iteration: what is written, what fails, and how long it pauses |
| OneShot.App.HandleFailed | internal/app/app.go:139-151 | unreached items join the failed queue; the rest is the reported success count |
| OneShot.FailRunCounts | internal/app/app.go:66-88 | the failure count is the number of fetches since the last successful one |
| OneShot.PausesGrowWithinARun | internal/app/app.go:115-126 | pauses lie between base and cap and never shrink within a run of failures |
| Runs.WebhookEndsTheWait | internal/queue/queue.go:121-129 | remark: a duplicate of a failed row makes it ready at once iff it has webhook priority (or the row was ready already), keeping attempts and error |
| Runs.SecondsAreFloored | internal/queue/queue.go:356-357 | remark: stored times are whole seconds, rounded down |
| Runs.EnqueueStoresRequest | internal/queue/queue.go:758-826 | remark: an enqueue onto a new or retryable row, read back, gives the requested columns without album and with defaulted destinations; a claimed or done row keeps its payload |
| Ledger.RetryRestarts | internal/queue/queue.go:443-504 | remark: a retried row is ready at once with zero attempts and no error, exactly its linked processing results become pending, and nothing else changes |
| Ledger.NewRowTakesItsPlace | internal/queue/queue.go:225-236 | remark: a new row is claimed after exactly the rows of at least its priority: webhook first, first in first out within a priority |
| Cache.StoreThenExact | internal/cache/cache.go:61-78 | remark: the entry under the normalized triple holds the text and the whole second of the store; no other entry changes |
| Tables.CacheRepo.LookupExact | internal/cache/cache.go:23-40 | remark: the text stored under the normalized triple, or no row |
| Enqueueing.RestoreUndoesReserve | internal/scan/enqueuer.go:76-91 | remark: reserving a pending result and giving it back changes nothing |
| Backoff.WaitDoublesUntilCapped | internal/backoff/backoff.go:16-37 | remark: the first wait is the base or the smaller cap, each attempt doubles it up to the cap, and without a positive base and cap there is none |

## Left out

- SQLite itself, migrations, JSON and time text: transactions are atomic steps on maps, destinations and times are values; texts that are not valid UTF-8 and years beyond four digits are not modelled.
- updated_at of queue rows, and the API key tables.
- The libraries table: any number may serve as a library id; deleting a library has on these tables the effect of clearing its scan results.
- created_at of a row and the clock of the enqueue are one reading; in the service the database reads its own clock.
- Queue listing and counting by status; the claim order stands for their order.
- The texts of recorded errors: a failure carries some text or none.
- Fetching, speech verification and file writing: each is a parameter that answers or fails; lyrics and subtitles of a song are one abstract text.
- Floating-point rounding of scores.
- Enqueueing.Enqueuer.EnqueuePending: stated for a pass that no worker interleaves, because each result takes several transactions.
- Draining.DrainsInOrder: stated for a frozen clock and a drain that no other actor interleaves; with a moving clock rows become ready while the loop runs.
- Pipeline.PendingBecomesDone: stated for a pass and a drain that follow each other without another actor between.
- Worker.Worker.Run: sleeping and pacing between turns are not modelled; cancellation is a bound on the number of turns and a flag of each turn.
- OneShot.App.Run: the cooldown countdown after a successful fetch and the file of failed items are not modelled.
- Unicode normalization, command-line and configuration handling, the HTTP server, authentication and directory scanning.
