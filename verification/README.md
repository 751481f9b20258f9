# Knowledge kiln: a verified model of its core

The kiln ingests Markdown documents, cuts them into chunks, embeds and stores the chunks, and answers
retrieval queries over HTTP. This project models the parts of it that keep state or have a tricky loop and
proves what each is for. Every loop and every object with mutable fields is an imperative method or class,
proved against a specification function; the laws are lemmas about those functions and about the transition
systems built from them.

- **Chunker** (`Scanner`, `ScannerSpec`, `ScannerLaws`, `TextRoundTrip`, `Sections`, `Packing`, `Document`). A line is a
  record of the facts its regular expressions decide; token counting is an arbitrary non-negative function.
- **Job queue, worker and recovery** (`JobQueue`, `WorkerProtocol`). Each committed transaction is one
  atomic step, but the startup sweep, at the database's default isolation level (read committed): it selects
  the running rows, decides on and locks them one by one, and commits. Any number of workers interleave and
  may crash between any two steps.
- **Idempotency keys** (`IdempotencyTable`, `IdempotencyProtocol`). Requests check, run their handler,
  insert, commit or roll back while a clock advances and a sweeper deletes. The header is the one of
  section 2 of draft-ietf-httpapi-idempotency-key-header.
- **Embedding fan-out** (`FanOut`, `FanOutRun`, `Reembed`). Tasks share an array and a semaphore; a schedule
  is any possible order of their moves, with any provider answers.
- **Rate limiter and query cache** (`OrderedDict`, `TokenBucket`, `RateLimit`, `HydeCache`). Bounded
  insertion-ordered maps over exact real time. A configuration's `earned` gives the tokens earned by each
  moment; the limiter's own is linear in time (`Limiter.Settings`).
- **Chunk sync** (`ChunkSync`), **rank fusion and boosts** (`Fusion`), **JSON conversion** (`JsonSafe`, `JsonLaws`).
  `Wrappers` and `Reals` hold what they share.

## Where the code and its documentation disagree

The model follows the code in each case.

- The recovery docstring's first case, marking a job succeeded because the crash came after its run was
  persisted, never serves that purpose: a job gets its run id only together with `succeeded`. It occurs only
  after a sweep has requeued a job that was finished under its hands
  (`WorkerProtocol.UnresultedIffRaceFree`, `WorkerProtocol.SweepOnlyRequeues`,
  `WorkerProtocol.RacingSweepLeadsToMarkedJob`).
- The sweep assumes that no other worker is at work; `WorkerProtocol.ExclusiveIffUnheldSweeps` is the exact
  condition and `WorkerProtocol.RollingStartDoubleProcesses` the run that breaks it.
- A comment in the idempotency check says that a store replaces an expired row; the insert does nothing
  where a row exists: `IdempotencyProtocol.ExpiredRowBlocksCaching`.
- The packer's docstring says that a heading goes with the next batch:
  `Packing.HeadingAloneWhenNextDoesNotFit` says exactly when it does not.
- The title is the first level-1 heading that has a body of its own, not the first level-1 heading:
  `Document.TitleIsFirstTopIffNoStub`.
- The precaution of emptying failed batches' slots never has an effect: `FanOut.ClearingChangesNothing`.
- A file that has become empty keeps its old rows: `ChunkSync.Store.ProcessFile`.

## Model

| member | source | states |
|---|---|---|
| Scanner.ScanBlocks | src/cf_knowledge_kiln/ingestion/chunking.py:114-211 | The scanner's index-and-stack loop produces exactly the blocks of the suffix-recursive scan that every law below is about. |
| Scanner.FenceEnd | src/cf_knowledge_kiln/ingestion/chunking.py:145-175 | The inner fence loop stops exactly where the open-fence stack empties, or at end of input. |
| Scanner.TableEnd | src/cf_knowledge_kiln/ingestion/chunking.py:184-190 | A table ends, after its header and separator, before its first blank or pipeless line: every line it takes has a pipe, and the line at its end has none. |
| Scanner.ListEnd | src/cf_knowledge_kiln/ingestion/chunking.py:192-204 | A list takes exactly the lines on which it goes on: items, indented lines, and blank lines with an item or nothing behind them. |
| Scanner.ParagraphEnd | src/cf_knowledge_kiln/ingestion/chunking.py:205-210 | A paragraph takes text lines on which no block starts, and ends at a blank line, at a line where one does, or at the end. |
| Scanner.StartsBlockAgreesWithDispatch | src/cf_knowledge_kiln/ingestion/chunking.py:214-221 | The lookahead test holds of a line if and only if the top-level dispatch would not make it a paragraph. |
| ScannerSpec.StackIsNesting | src/cf_knowledge_kiln/ingestion/chunking.py:137-175 | The open-fence stack measures nesting: a fence takes its content, whole nested fences, and its closer, as a bracket grammar defines them. |
| ScannerSpec.WellCutIsUnique | src/cf_knowledge_kiln/ingestion/chunking.py:124-221 | At a text line only one extent and kind of block meets the line-by-line description of a block. |
| ScannerSpec.ScanIsTheOnlyCut | src/cf_knowledge_kiln/ingestion/chunking.py:114-211 | A list of blocks is the scan if and only if each block is, said of the lines alone, a maximal run by its own kind's rule and only blank lines lie between. |
| ScannerLaws.ScanConservesLines | src/cf_knowledge_kiln/ingestion/chunking.py:114-211 | The document is its blocks' lines woven with gaps of blank lines only: no line is lost, duplicated or moved. |
| ScannerLaws.BlocksBeginWithText | src/cf_knowledge_kiln/ingestion/chunking.py:120-124 | Every block is non-empty and starts on a non-blank line. |
| ScannerLaws.StackClosesNoEarlier | src/cf_knowledge_kiln/ingestion/chunking.py:137-144 | However the stack stands, the block never ends before the first bare closer of the flat rule in section 4.5 of CommonMark (closer indentation ignored). |
| ScannerLaws.StackIsFlatIffNestingClosed | src/cf_knowledge_kiln/ingestion/chunking.py:137-175 | The block ends where the flat rule ends it if and only if that is the end of the input or every fence opened inside has been closed by then. |
| ScannerLaws.StackIsFlatWithoutNesting | src/cf_knowledge_kiln/ingestion/chunking.py:137-144 | In particular the two agree if the content holds no same-character fence line with an info string. |
| ScannerLaws.NestingDefersTheCloser | src/cf_knowledge_kiln/ingestion/chunking.py:163-170 | One document in which they differ: a fence of the opener's length opened inside takes its closer. |
| ScannerLaws.PrintScanRoundTrip | src/cf_knowledge_kiln/ingestion/chunking.py:114-221 | For every run of consecutive blocks of every document: joined by blank lines and rescanned, it comes back unchanged if and only if no list is directly followed by a block that starts with a list item. |
| TextRoundTrip.SplitUndoesJoin | src/cf_knowledge_kiln/ingestion/chunking.py:116 | Splitting joined lines gives them back when none holds a line break and the last is not empty. |
| TextRoundTrip.SplitAtBoundary | src/cf_knowledge_kiln/ingestion/chunking.py:116 | Text is split at each boundary, a carriage return and line feed counting as one. |
| TextRoundTrip.SectionTextRoundTrip | src/cf_knowledge_kiln/ingestion/chunking.py:269-270 | The same if-and-only-if on strings: section text before its final strip, split into lines and rescanned, for any line recogniser that maps the empty string to the blank line. |
| Sections.GroupIntoSections | src/cf_knowledge_kiln/ingestion/chunking.py:230-256 | The grouping loop with its mutable path gives the sections defined by position: each from one heading to the next, under the path after that heading. |
| Sections.SectionsDropOnlyStubs | src/cf_knowledge_kiln/ingestion/chunking.py:230-266 | The sections hold, in order, every block except headings directly followed by a heading or the end, each under the path of the headings before it. |
| Sections.SectionsAreWellGrouped | src/cf_knowledge_kiln/ingestion/chunking.py:245-266 | A heading occurs only as a section's first block, and each section has a body. |
| Sections.SectionsStartAtHeadings | src/cf_knowledge_kiln/ingestion/chunking.py:245-253 | Sections are cut at headings only: every section starts with one, but for a first section in front of all headings. |
| Sections.HeadingStaysOnPath | src/cf_knowledge_kiln/ingestion/chunking.py:249-251 | A heading, dropped or not, stays on the path until the next heading of the same or a smaller level. |
| Sections.PathNoLongerThanLevel | src/cf_knowledge_kiln/ingestion/chunking.py:249-250 | A path is never longer than its last heading's level and ends in that heading. |
| Sections.PathsFollowTheTree | src/cf_knowledge_kiln/ingestion/chunking.py:249-250 | All paths are chains of nearest preceding headings of smaller level if and only if, at each heading of level l, the first l - 1 headings of the chain before it have smaller levels. |
| Sections.NoSkipFollowsTheTree | src/cf_knowledge_kiln/ingestion/chunking.py:249-250 | Where no heading skips a level, each path is the chain of nearest preceding headings of strictly smaller level, and its length is the level. |
| Sections.LeadingDeepHeadingsNest | src/cf_knowledge_kiln/ingestion/chunking.py:249-250 | Without that: a document of two level-3 headings, scanned, nests them. |
| Packing.PackBlocks | src/cf_knowledge_kiln/ingestion/chunking.py:280-292 | The packing loop, with its buffer and running count, yields the greedy batches. |
| Packing.PackConserves | src/cf_knowledge_kiln/ingestion/chunking.py:273-292 | The batches concatenate to the blocks, none is empty, and each count is the sum over its blocks. |
| Packing.PackIsTheOnlyGreedyCut | src/cf_knowledge_kiln/ingestion/chunking.py:280-292 | A cut into batches is the packer's if and only if each batch takes every next block that is a heading or fits, closes only at one that does neither, and counts the sum of its own blocks. |
| Packing.PackFits | src/cf_knowledge_kiln/ingestion/chunking.py:285-290 | With headings only in front, a batch of two or more blocks stays within the limit. |
| Packing.PackIsOptimal | src/cf_knowledge_kiln/ingestion/chunking.py:273-292 | No split of the blocks into runs that fit or are single uses fewer runs than the packer, headings or not. |
| Packing.HeadingAloneWhenNextDoesNotFit | src/cf_knowledge_kiln/ingestion/chunking.py:274-280 | A leading heading is emitted alone if and only if the next block does not fit beside it. |
| Document.ChunkSections | src/cf_knowledge_kiln/ingestion/chunking.py:365-381 | The chunk loop with its title search: the numbered chunks of all sections with visible text; the declared title if there is one, else the first level-1 heading among them. |
| Document.ParseBody | src/cf_knowledge_kiln/ingestion/chunking.py:362-385 | The whole of scanning, grouping and chunking, composed; a declared title is kept as it is. |
| Document.ChunksHoldTheDocument | src/cf_knowledge_kiln/ingestion/chunking.py:362-385 | The chunks hold every block of the document but stub headings, once, in order, each under its path; they are numbered from zero; and a chunk whose recorded count (for a packed chunk the sum over its blocks, separators not counted) exceeds the limit is a single block. |
| Document.ChunksAreTheOnlyCut | src/cf_knowledge_kiln/ingestion/chunking.py:367-381 | Chunks are a document's if and only if, section by section and numbered on, they are none for blank text, one with the whole text's count for text that fits, and otherwise a greedy cut at the limit, each counting its own blocks. |
| Document.ChunksAreFewest | src/cf_knowledge_kiln/ingestion/chunking.py:376-381 | No way to cut every section into runs that fit or are single blocks has fewer runs in all than the document has chunks. |
| Document.ChunksCountTheirText | src/cf_knowledge_kiln/ingestion/chunking.py:376-381 | A chunk's count is that of its stripped text, within the limit, or the sum of its blocks' texts' counts. |
| Document.TitleIsOfFirstShown | src/cf_knowledge_kiln/ingestion/chunking.py:366-375 | The title is the first level-1 heading of the first section with visible text that has one, and there is none if no such section has. |
| Document.ShowsIffText | src/cf_knowledge_kiln/ingestion/chunking.py:368-370 | A section is passed over if and only if its text is all white space. |
| Document.StripTrims | src/cf_knowledge_kiln/ingestion/chunking.py:269-270 | Stripping takes white space off both ends, and all of it. |
| Document.TitleIsFirstTopIffNoStub | src/cf_knowledge_kiln/ingestion/chunking.py:366-375 | An undeclared title is taken from the document's first level-1 heading if and only if there is none or it is not directly followed by a heading or the end. |
| Document.StubTitleIsLost | src/cf_knowledge_kiln/ingestion/chunking.py:366-375 | A document of three lines, scanned and grouped, that loses its title this way. |
| JobQueue.JobTable.Create | src/cf_knowledge_kiln/db/repositories/operations.py:344-354 | The new row field by field: enqueued at the time of the call, queued, no attempts, the rest unset. |
| JobQueue.JobTable.ClaimOne | src/cf_knowledge_kiln/db/repositories/operations.py:377-416 | Claims a queued, unlocked row enqueued no later than any other, if there is one: running, one attempt more, started now, its other fields and all other rows as they were. |
| JobQueue.JobTable.MarkDone | src/cf_knowledge_kiln/db/repositories/operations.py:418-423 | Writes succeeded, the run id and the finishing time; the row's other fields and all other rows stay. |
| JobQueue.JobTable.MarkFailed | src/cf_knowledge_kiln/db/repositories/operations.py:425-430 | Writes failed, the error and the finishing time; the row's other fields and all other rows stay. |
| JobQueue.JobTable.RequeueRow | src/cf_knowledge_kiln/db/repositories/operations.py:432-438 | Puts the row back to queued without times and error; its place in the queue, attempts and run id stay. |
| JobQueue.JobTable.Reconcile | src/cf_knowledge_kiln/ingestion/worker.py:135-143 | The sweep's loop, in any order of rows, on the rows as they then stand: succeeded with the run selected if that run had succeeded, be it in part, else queued; rows not selected stay. |
| JobQueue.JobTable.RecoverStaleRunning | src/cf_knowledge_kiln/ingestion/worker.py:130-144 | With nothing between selection and writes, each running row is settled once and none is left running. |
| WorkerProtocol.StepKeepsSound | src/cf_knowledge_kiln/ingestion/worker.py:109-208 | Every step of every worker, crashes and the separate selection, decisions and commit of a sweep included, keeps the invariant that ties job rows, run rows and worker phases. |
| WorkerProtocol.RunKeepsSound | src/cf_knowledge_kiln/ingestion/worker.py:94-208 | So it holds after every interleaving of any number of workers. |
| WorkerProtocol.UnresultedIffRaceFree | src/cf_knowledge_kiln/ingestion/worker.py:130-144 | Queued and running jobs are without a run id throughout a run if and only if no sweep requeues a job that was finished between the sweep's selection and its write. |
| WorkerProtocol.SweepOnlyRequeues | src/cf_knowledge_kiln/ingestion/worker.py:112-143 | After a run without such a race a sweep requeues every job it selected and marks none succeeded. |
| WorkerProtocol.RunningAfterSweepWasClaimed | src/cf_knowledge_kiln/ingestion/worker.py:130-144 | The only jobs running right after a sweep's commit are those claimed since its selection. |
| WorkerProtocol.RacingSweepRequeuesFinishedJob | src/cf_knowledge_kiln/db/repositories/operations.py:432-438 | A reachable run in which a worker finishes under another's sweep: the job is queued again with its run id. |
| WorkerProtocol.RacingSweepLeadsToMarkedJob | src/cf_knowledge_kiln/ingestion/worker.py:136-141 | From there a crash and a second sweep mark the job succeeded: the docstring's first case, reached only this way. |
| WorkerProtocol.SucceededNamesFinishedRun | src/cf_knowledge_kiln/ingestion/worker.py:197-208 | A succeeded job always names a run in a terminal status. |
| WorkerProtocol.OrphanedRunStaysRunning | src/cf_knowledge_kiln/ingestion/pipeline.py:92-163 | A run whose worker died before closing it stays running for ever. |
| WorkerProtocol.AttemptsCountClaims | src/cf_knowledge_kiln/db/repositories/operations.py:377-416 | The attempts column is the number of claims, and no job is ever lost. |
| WorkerProtocol.ClaimTakesFirstCreated | src/cf_knowledge_kiln/db/repositories/operations.py:394-403 | First in, first out: of jobs created at increasing times, a still queued one enqueued no later than the others was created before them, whatever has been claimed, failed and requeued since. |
| WorkerProtocol.QueuedJobCanSucceed | src/cf_knowledge_kiln/ingestion/worker.py:154-208 | From any state an idle worker can take any queued, unlocked job to success by its own steps, whatever the final status of its run, with one attempt, one run and no other row touched. |
| WorkerProtocol.FailureCanBeRecorded | src/cf_knowledge_kiln/ingestion/worker.py:163-183 | An exception at any point of an attempt can be recorded: the job has failed with that error, attempts, result and runs stand, and the worker goes on, or exits if cancelled. |
| WorkerProtocol.RestartRecovers | src/cf_knowledge_kiln/ingestion/worker.py:94-144 | From any state without an open sweep, a worker that is down can start and sweep by its own steps, after which every job that was running is queued, or succeeded if its run had; no other job has changed. |
| WorkerProtocol.StepKeepsExclusive | src/cf_knowledge_kiln/ingestion/worker.py:109-208 | A step keeps held jobs running and singly held if and only if it is not the commit of a sweep that selected a held job. |
| WorkerProtocol.ExclusiveIffUnheldSweeps | src/cf_knowledge_kiln/ingestion/worker.py:94-208 | Over all runs, with crashes anywhere: processing is exclusive throughout if and only if every sweep commits while nobody holds a job that it selected. |
| WorkerProtocol.LoneSweepsAreCareful | src/cf_knowledge_kiln/ingestion/worker.py:94-100 | If no other worker is up from each sweep's selection to its commit, every sweep commits on running jobs that nobody holds. |
| WorkerProtocol.AtMostOneHolder | src/cf_knowledge_kiln/ingestion/worker.py:94-208 | From the empty system, where sweeps commit on unheld jobs, two live workers never hold the same job and what they hold is running. |
| WorkerProtocol.FinalJobsNeverChange | src/cf_knowledge_kiln/db/repositories/operations.py:418-438 | Where sweeps commit on unheld and unfinished jobs, a succeeded or failed job never changes again. |
| WorkerProtocol.AttemptsAreRequeuesPlusOne | src/cf_knowledge_kiln/ingestion/worker.py:136-143 | There, every attempt but the latest was taken back by a sweep. |
| WorkerProtocol.RollingStartDoubleProcesses | src/cf_knowledge_kiln/ingestion/worker.py:96-100 | A second worker started while the first is busy ends up holding the same job. |
| IdempotencyTable.SweepingChangesNoAnswer | src/cf_knowledge_kiln/db/repositories/idempotency.py:151-165 | A sweep removes only rows the check already refuses: no later decision changes. |
| IdempotencyTable.RefusedButNotSwept | src/cf_knowledge_kiln/api/idempotency.py:203-204 | At the moment of expiry a row is refused and not yet swept. |
| IdempotencyTable.Table.Lookup | src/cf_knowledge_kiln/db/repositories/idempotency.py:49-62 | Returns the stored row, expired or not. |
| IdempotencyTable.Table.CheckOrReplay | src/cf_knowledge_kiln/api/idempotency.py:162-220 | Misses exactly without a usable key, a row or time left; conflicts exactly on a live row with another body hash; else replays the row's response. |
| IdempotencyTable.Table.CreateIfAbsent | src/cf_knowledge_kiln/db/repositories/idempotency.py:99-149 | Inserts, with an expiry 24 hours on, if and only if the slot is free, and otherwise leaves the table as it is. |
| IdempotencyTable.Table.DeleteExpired | src/cf_knowledge_kiln/db/repositories/idempotency.py:151-165 | Keeps, unchanged, exactly the rows whose expiry is not before the cutoff, and counts the others. |
| IdempotencyProtocol.StepKeepsSound | src/cf_knowledge_kiln/api/idempotency.py:162-303 | Every step of any number of requests, commits, rollbacks, clock ticks and sweeps keeps the invariant over table, open transactions and histories. |
| IdempotencyProtocol.RunKeepsSound | src/cf_knowledge_kiln/api/idempotency.py:162-303 | So it holds after every interleaving. |
| IdempotencyProtocol.ReplaysAreEarlierAnswers | src/cf_knowledge_kiln/api/idempotency.py:214-220 | Every replay serves what a handler run answered, with a status from 200 to 499, to a request with the same key, route and body hash, and stored less than 24 hours before (counted from the insert). |
| IdempotencyProtocol.ReplaysAgreeUntilExpiry | src/cf_knowledge_kiln/api/idempotency.py:292-297 | Two replays of one slot agree unless the earlier one's row had expired by the later one. |
| IdempotencyProtocol.RowsOfOneSlotNeverOverlap | src/cf_knowledge_kiln/db/repositories/idempotency.py:131-144 | The lifetimes of two committed rows of one slot never overlap. |
| IdempotencyProtocol.RowsStayUntilSwept | src/cf_knowledge_kiln/db/repositories/idempotency.py:131-149 | A committed row never changes and only a sweep removes it. |
| IdempotencyProtocol.ExpiredRowBlocksCaching | src/cf_knowledge_kiln/api/idempotency.py:196-204 | Between a row's expiry and the next sweep every request misses and every store leaves the table unchanged. |
| IdempotencyProtocol.FirstAnswerIsStored | src/cf_knowledge_kiln/api/idempotency.py:282-292 | A request that finds no row and no insert of its slot under way can run, insert and commit, and its answer is then the slot's row for 24 hours. |
| IdempotencyProtocol.UnstoredAnswerStillCommits | src/cf_knowledge_kiln/api/idempotency.py:307-333 | A store that fails or is skipped costs only the caching: the request commits, and nothing else has changed. |
| IdempotencyProtocol.RollbackFreesSlot | src/cf_knowledge_kiln/api/idempotency.py:282-291 | An insert that is rolled back leaves no row and gives up its slot. |
| IdempotencyProtocol.LiveRowRunsNoHandler | src/cf_knowledge_kiln/api/idempotency.py:206-220 | A request that meets a live row runs no handler: it is replayed from the row, or refused if its body hash differs. |
| IdempotencyProtocol.LiveRowsAnswer | src/cf_knowledge_kiln/api/idempotency.py:196-220 | Whatever happens, sweeps included, a committed row answers every request of its slot until it is 24 hours old: with its response for its body hash, with a refusal for any other. |
| IdempotencyProtocol.CommittedAnswerServes | src/cf_knowledge_kiln/api/idempotency.py:214-220 | Once an insert is committed, every equal request of the next 24 hours gets that answer, in every interleaving. |
| IdempotencyProtocol.StoreIffCacheable | src/cf_knowledge_kiln/api/idempotency.py:228-238 | An answer is offered to the table if and only if its status is from 200 to 499. |
| IdempotencyProtocol.SweepFreesExpiredSlots | src/cf_knowledge_kiln/db/repositories/idempotency.py:151-165 | A sweep removes exactly the rows that had expired before it, and a store in such a slot inserts again. |
| FanOut.BatchesTile | src/cf_knowledge_kiln/ingestion/embedding/batched.py:92-94 | The batches hold every text once, in order, at their stated offsets; none is empty, and all but the last are full. |
| FanOut.StepKeepsSound | src/cf_knowledge_kiln/ingestion/embedding/batched.py:98-110 | Each task's move, with any answer, keeps: the shared array is the sequential result of the answers so far, and permits out are calls under way. |
| FanOut.RunKeepsSound | src/cf_knowledge_kiln/ingestion/embedding/batched.py:96-117 | So for every completion order and failure pattern; and at most `concurrency` calls are under way. |
| FanOut.ExpectedAt | src/cf_knowledge_kiln/ingestion/embedding/batched.py:109-110 | In the sequential result a text's slot is the one that its batch gives it. |
| FanOut.AnswerIsPlaced | src/cf_knowledge_kiln/ingestion/embedding/batched.py:104-110 | If a batch was answered with as many vectors as it has texts, each of its texts' slots holds the vector in that text's place; if not, all of them are empty. |
| FanOut.FailureIsInPlace | src/cf_knowledge_kiln/ingestion/embedding/batched.py:127-138 | The list of failures holds the failed batches and no others, in input order, each with its offset, its size and what its task raised. |
| FanOut.SomeBatchMoves | src/cf_knowledge_kiln/ingestion/embedding/batched.py:98-103 | No deadlock: until every batch is answered some batch can move, and each move brings the end nearer. |
| FanOut.RunsEndAfterTwoMovesEach | src/cf_knowledge_kiln/ingestion/embedding/batched.py:114-117 | A run is complete exactly when it has moved every batch twice. |
| FanOut.CollectFailures | src/cf_knowledge_kiln/ingestion/embedding/batched.py:122-138 | The walk returns the failed batches in input order and empties exactly their stretches of the array. |
| FanOut.ClearedStretch | src/cf_knowledge_kiln/ingestion/embedding/batched.py:129-137 | Whatever the array holds, the walk leaves nothing in a failed batch's stretch and every other batch's as it was. |
| FanOut.ClearingChangesNothing | src/cf_knowledge_kiln/ingestion/embedding/batched.py:129-137 | After any run that emptying is without effect: failed batches never wrote anything. |
| FanOutRun.Tasks.Move | src/cf_knowledge_kiln/ingestion/embedding/batched.py:98-110 | One task's move on the shared array and semaphore is the step of the protocol above. |
| FanOutRun.AnswersArePlaced | src/cf_knowledge_kiln/ingestion/embedding/batched.py:96-119 | For every schedule, each answer given in it is found in its own texts' slots of the result. |
| FanOutRun.EmbedConcurrently | src/cf_knowledge_kiln/ingestion/embedding/batched.py:64-119 | The result is decided by the answers alone, not by the schedule, and has each answer in its own texts' slots; non-positive settings are refused. |
| Reembed.Embeddings.WriteVectors | src/cf_knowledge_kiln/ingestion/reembed.py:169-198 | Upserts the chunks that have a vector and counts both kinds. |
| Reembed.Embeddings.ReembedAll | src/cf_knowledge_kiln/ingestion/reembed.py:69-146 | Fails, writing nothing, exactly on bad settings or when every batch failed, with the first batch's error; otherwise embedded plus failed is the total and failed is the failed batches' sizes. |
| Reembed.HolesAreFailedTexts | src/cf_knowledge_kiln/ingestion/reembed.py:123-126 | The empty slots number the failed batches' texts, and all are empty if and only if every batch failed. |
| Reembed.UpsertedAt | src/cf_knowledge_kiln/ingestion/reembed.py:185-197 | A chunk whose batch succeeded has its new vector under its own hash; one whose batch failed keeps the row it had. |
| Reembed.ChunkGetsItsOwnAnswer | src/cf_knowledge_kiln/ingestion/reembed.py:185-197 | From the schedule to the rows: the chunk of a text has the vector that the provider gave for that text, under the chunk's hash, or the row it had if its batch failed. |
| TokenBucket.DeniedHitsDoNotMatter | src/cf_knowledge_kiln/api/rate_limit.py:104-111 | Taking a denied hit out of a key's history changes no later decision. |
| TokenBucket.LazyRefillIsEager | src/cf_knowledge_kiln/api/rate_limit.py:104-106 | A bucket refilled only at hits stands where one refilled at any moments in between would. |
| TokenBucket.AllowedIffWithinEveryWindow | src/cf_knowledge_kiln/api/rate_limit.py:90-111 | A hit is allowed if and only if, with it, the hits allowed since each earlier one stay within the capacity plus what was earned since. |
| RateLimit.Limiter.Hit | src/cf_knowledge_kiln/api/rate_limit.py:90-111 | Decides by the key's own bucket, moves it to the newest place, and keeps the map bounded. |
| RateLimit.Limiter.RetryAfter | src/cf_knowledge_kiln/api/rate_limit.py:113-127 | After a denial, the least whole number of seconds after which a hit is allowed; one if a hit is allowed or the key is unknown. |
| RateLimit.HitKeepsSound | src/cf_knowledge_kiln/api/rate_limit.py:94-103 | The map stays within its bound with distinct keys, and the key just hit is never the one dropped. |
| RateLimit.DroppedIsLeastRecent | src/cf_knowledge_kiln/api/rate_limit.py:94-103 | A bucket is dropped only from a full map, for a key that has none, and it is that of the key hit longest ago. |
| RateLimit.WindowBound | src/cf_knowledge_kiln/api/rate_limit.py:90-111 | In any window of any history, all keys interleaved, one key's allowed hits are at most the capacity times one plus its evictions, plus what was earned over the window. |
| RateLimit.LimiterWindowBound | src/cf_knowledge_kiln/api/rate_limit.py:79-111 | In the limiter's settings: at most capacity times one plus the evictions, plus the window's length times the capacity per window_seconds. |
| RateLimit.UndroppedKeyIsAlone | src/cf_knowledge_kiln/api/rate_limit.py:90-111 | While its bucket is never dropped, a key's bucket is a function of its own hits. |
| RateLimit.UndroppedHitIsAlone | src/cf_knowledge_kiln/api/rate_limit.py:90-111 | So each of its hits is decided as if there were no other keys. |
| HydeCache.Cache.Get | src/cf_knowledge_kiln/retrieval/hyde/cache.py:57-72 | Returns a stored value that is not too old and makes its entry the newest; drops one that is too old; changes nothing else. |
| HydeCache.Cache.Put | src/cf_knowledge_kiln/retrieval/hyde/cache.py:74-84 | Stores the value as the newest entry, in place of any older one of the key, and drops the oldest beyond the bound. |
| HydeCache.SizeIsBounded | src/cf_knowledge_kiln/retrieval/hyde/cache.py:83-84 | After every history the keys are distinct and within the bound. |
| HydeCache.HistoryKeeps | src/cf_knowledge_kiln/retrieval/hyde/cache.py:57-84 | The keys stored behind a key are exactly that crowd, so the stored order is recency order; and a key that should be kept is. |
| HydeCache.HitsAreFreshLastPuts | src/cf_knowledge_kiln/retrieval/hyde/cache.py:63-72 | A get returns only the last value put since any clear, no older than the time to live. |
| HydeCache.FreshRecentKeysHit | src/cf_knowledge_kiln/retrieval/hyde/cache.py:74-84 | A get hits when that value is fresh and fewer than the bound of other keys were put or hit since. |
| HydeCache.HitsExactly | src/cf_knowledge_kiln/retrieval/hyde/cache.py:57-84 | A get hits if and only if the last put is no older than the time to live and the key was not crowded out: the other keys put or hit since it was last put or hit, less those removed as too old, never numbered the bound. |
| ChunkSync.Store.Upsert | src/cf_knowledge_kiln/ingestion/_file_processing.py:260-305 | Writes the chunk's content, tokens, hash, path and the content's markers under the row's old id, or inserts them under a new one. |
| ChunkSync.Store.Sync | src/cf_knowledge_kiln/ingestion/_file_processing.py:350-371 | Leaves one row per chunk and no others of the document, touches no other document, and counts written and kept chunks. |
| ChunkSync.Store.ProcessFile | src/cf_knowledge_kiln/ingestion/_file_processing.py:308-371 | An unreadable or empty file is skipped and changes no row; any other is synced. |
| ChunkSync.OrphansGo | src/cf_knowledge_kiln/ingestion/_file_processing.py:366-370 | Deleting by the ids read at the start deletes exactly the rows past the new end. |
| ChunkSync.SyncStoresTheDocument | src/cf_knowledge_kiln/ingestion/_file_processing.py:350-371 | With an injective hash and consistent rows, the stored indices, contents and hashes are those of a full rewrite; ids survive; a row whose hash was stored stays, any other takes the chunk's count, path and its content's markers. |
| ChunkSync.ChangedCountIsExact | src/cf_knowledge_kiln/ingestion/_file_processing.py:353-365 | The count of written chunks is the number of chunks without a stored row of their hash. |
| ChunkSync.UpToDateIffChangedOrBefore | src/cf_knowledge_kiln/ingestion/_file_processing.py:355-357 | A row's path, token count and markers end up to date if and only if its hash changed or they were up to date before. |
| ChunkSync.RenamedParentLeavesOldPath | src/cf_knowledge_kiln/ingestion/_file_processing.py:355-357 | Renaming a parent heading leaves the old path on an unchanged chunk. |
| ChunkSync.SecondSyncWritesNothing | src/cf_knowledge_kiln/ingestion/_file_processing.py:350-371 | A second sync of the same chunks writes nothing and changes nothing. |
| Fusion.Fuse | src/cf_knowledge_kiln/retrieval/ranking.py:91-111 | The accumulating loop scores exactly the ranked chunks, each with the sum over the arms. |
| Fusion.QueryIsRescaledLoop | src/cf_knowledge_kiln/db/repositories/_hybrid.py:122-131 | The query's grouped sum over both arms' rows is the loop's score, rescaled. |
| Fusion.QueryScoreBounds | src/cf_knowledge_kiln/db/repositories/_hybrid.py:116-127 | For duplicate-free arms the rescaled score is in [0, 1], positive exactly for ranked chunks, one exactly for a chunk first in both arms, a half for first in one and absent in the other. |
| Fusion.QueryScoreOfPlaces | src/cf_knowledge_kiln/db/repositories/_hybrid.py:116-127 | A chunk at ranks p and q scores (1/(k+p) + 1/(k+q))(k+1)/2, an arm without it giving nothing. |
| Fusion.AheadEverywhereScoresHigher | src/cf_knowledge_kiln/retrieval/ranking.py:98-110 | A chunk ahead of another wherever either is ranked scores strictly higher, for any number of arms. |
| Fusion.FreshnessRange | src/cf_knowledge_kiln/retrieval/ranking.py:156-179 | Freshness is in [0.3, 1]: 1 exactly inside the window, 0.3 exactly from twice the window on. |
| Fusion.FreshnessFallsEvenly | src/cf_knowledge_kiln/retrieval/ranking.py:156-179 | Between one window and two each day costs 0.7 divided by the window's days; without a window nothing is stale; what was never reviewed has 0.3. |
| Fusion.FreshnessFallsWithAge | src/cf_knowledge_kiln/retrieval/ranking.py:156-179 | An earlier review is never fresher, an unknown one as stale as any. |
| Fusion.BoostNeverRaises | src/cf_knowledge_kiln/retrieval/ranking.py:131-153 | A boost keeps a score in (0, 1] positive and never raises it. |
| Fusion.BoostsCompose | src/cf_knowledge_kiln/retrieval/ranking.py:115-153 | The status boost multiplies by the configured weight, or one, the freshness boost by the freshness; a boost is the one after the other in either order, and touches nothing but the score. |
| Fusion.BoostKeepsLead | src/cf_knowledge_kiln/retrieval/ranking.py:131-153 | A higher score with no worse weight and freshness stays strictly ahead. |
| JsonSafe.CutsAreLoops | src/cf_knowledge_kiln/ingestion/_jsonsafe.py:54-65 | Wherever the result is cut off there is a walk in the graph that returns to a container it passed. |
| JsonSafe.CutIffLoops | src/cf_knowledge_kiln/ingestion/_jsonsafe.py:54-65 | On every finite graph, cyclic or shared: the result is cut off somewhere if and only if a container that the value reaches reaches itself, over values whose key no later entry of their dictionary repeats. |
| JsonSafe.CollisionHidesLoop | src/cf_knowledge_kiln/ingestion/_jsonsafe.py:60-61 | A dictionary that holds itself under a repeated key shows no cut. |
| JsonLaws.ResultIsWellFormed | src/cf_knowledge_kiln/ingestion/_jsonsafe.py:60-61 | No object of the result has a key twice. |
| JsonLaws.DictKeepsLastValues | src/cf_knowledge_kiln/ingestion/_jsonsafe.py:60-61 | A dictionary's string keys stand where they first occur, each with the conversion of its last value. |
| JsonLaws.ListKeepsPlaces | src/cf_knowledge_kiln/ingestion/_jsonsafe.py:62-63 | A list's members are converted in place. |
| JsonLaws.SetIsSortedMembers | src/cf_knowledge_kiln/ingestion/_jsonsafe.py:64-65 | A set becomes its members' conversions, each as often as it occurs, sorted by representation. |
| JsonLaws.LeavesBecomePlain | src/cf_knowledge_kiln/ingestion/_jsonsafe.py:66-81 | Moments, identifiers and paths become their text, decimals their float, and bytes the text they encode or else their hexadecimal digits, each as the plain value does. |
| JsonSafe.ForeignIffReached | src/cf_knowledge_kiln/ingestion/_jsonsafe.py:54-82 | The result is JSON throughout if and only if the value reaches, over such values, no float that is not finite and no value of an unlisted type. |
| JsonSafe.NotANumberIsKept | src/cf_knowledge_kiln/ingestion/_jsonsafe.py:71-72 | A decimal that is not a number becomes a float that JSON does not have. |
| JsonLaws.ConvertingAgainChangesNothing | src/cf_knowledge_kiln/ingestion/_jsonsafe.py:49-82 | The conversion is idempotent: its result, laid out in memory, converts to itself. |
| JsonLaws.SortSorts | src/cf_knowledge_kiln/ingestion/_jsonsafe.py:64-65 | A set's list is sorted and holds its members. |
| JsonLaws.SetOrderIsIrrelevant | src/cf_knowledge_kiln/ingestion/_jsonsafe.py:64-65 | Converting a set gives the same list in whatever order its members are walked, if no two of them have the same representation. |

## Left out

- Regular expressions, tokenizer, SHA-256, YAML, frontmatter and Markdown rendering: facts about lines, or
  arbitrary functions (injective where a lemma says so).
- SQL text, the ORM, vector and full-text ranking: a table is a map, a committed statement one step, and the
  two ranked arms are inputs without duplicates.
- HTTP routing, templates, connectors, credentials, DNS pinning, bearer authentication and header sanitizing.
- Provider adapters and their retries: an answer to a batch is arbitrary.
- Settings, migrations, telemetry, logging, tracing and evaluation reports.
- Warning emitters, review flags, confidence buckets and answer packaging: case analysis branch by branch.
- Floating-point rounding: scores, tokens and times are exact reals. A signalling NaN decimal, which cannot be
  converted to a float, is not modelled.
- The limiter's thread lock: each hit is one step.
- Constructors that raise on non-positive settings are modelled as preconditions.
- The `cancelled` job status and operator commands on the queue.
- Failures inside an ingestion run are one step, an exception at any point of it; the run's counters and
  per-file savepoints are not modelled.
- Idempotency rows' `resource_id`, the discrimination of store errors in logs, and the substitution of an
  empty body for a null one.
- The document row's own upsert (title, metadata, defaults): the document's id is an input of the sync.
- Counters of security markers in the ingestion summary: the markers of a row are a function of its content.
- The embedding pass over touched documents.
- ScannerLaws.PrintScanRoundTrip: stated on lines, before the final strip of a section's text.
- TextRoundTrip.SectionTextRoundTrip: the body must not end in a blank line, which the frontmatter parser
  ensures by stripping it.
- JsonLaws.ConvertingAgainChangesNothing: the result is laid out as a tree, in which no container is met
  again below itself.
- JsonLaws.SortSorts: the order of strings is an arbitrary real-valued sort key.
