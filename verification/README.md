# IndexGuard: the approval workflow, the index and the review queue, verified

IndexGuard lets a document into a search index only after a risk service (B) has judged its changes
and an operator (C) has approved it. This project models the gateway (A) that stands between them,
the index it protects, the directory queue that shares that index, and the smaller cores that feed
them, and proves what they promise over every run, input and order of events.

Three layers appear throughout:

- **Step functions** say what one call does to one state (`Gate`, `Operations`, `ChangeQueue`,
  `VersionedIndex`): the same branches, errors and constants as the code.
- **Classes and loop methods** do the work step by step on mutable tables, logs, dictionaries and
  caches (`SqliteIndexer.Indexer`, `Gateway`, `Service`, `WatchedDirectory`, `SafeZipPackage`), and are
  proved to do exactly what the step functions say.
- **Laws** say what the step functions mean, in terms of the records, logs and files alone, and what whole
  runs keep (`GateVerdicts`, `Conversations`, `Answers`, `EndToEnd`, `Records`, `*Safety`, `*Laws`, `Lineage`,
  `LostUpdates`, `Quarantine`, `Interleaving`, `QueueHistory`, `IndexUndo`, `QueueSearch`, `AutoIndexing`,
  `RiskDecisions`, `RiskFindings`, `RiskReport`); and short runs end where one of them does (`FirstApproval`,
  `DispatchWitnesses`, `QueueWitnesses`).

| module | models |
|---|---|
| `TextSplitter` | normalisation and overlapping windows of `split_text` |
| `VersionedIndex` | the index as a list of versions per document, current first |
| `SqliteIndexer` | the two tables, their transactions, and that they stand for the lists |
| `Search`, `SearchSafety`, `QueueSearch` | scoring, ranking and the search response, over the runs of both writers of the index |
| `AuditChain` | the hash-chained log and its check |
| `Gate`, `GateLaws`, `GateVerdicts`, `Gateway` | the gate as steps, its laws and its verdicts, and the store and gate as classes |
| `Operations`, `Service` | the workflow as steps, and `AnalysisOperations` as a class |
| `Runs`, `LogViews`, `StepEffects`, `Records` | runs of the gateway, and what each step does to the logs |
| `Conversations`, `Answers`, `CommandLaws`, `EndToEnd` | the requests and answers between A and B, C's commands, and the state each leaves |
| `ApprovalSafety`, `AuthoritySafety`, `CommandSafety`, `Lineage`, `LostUpdates`, `Quarantine` | the theorems over runs |
| `FirstApproval` | the way in: when prepare, submit and approve do index, and a run past the guarantee |
| `Interleaving`, `DispatchWitnesses` | preparations and dispatches taken apart and interleaved, and dispatches that fail too late |
| `Dashboard`, `ConsoleLaws` | the checks of the console and its client, and what they amount to |
| `Scanner`, `ChangeQueue`, `QueueHistory`, `IndexUndo`, `QueueSafety`, `QueueLaws`, `AutoIndexing`, `QueueWitnesses`, `WatchedDirectory` | the review queue |
| `DocxStyles`, `SafeZip`, `SafeZipPackage` | style inheritance and the bounded ZIP reader |
| `RiskEngine`, `RiskService`, `RiskDecisions`, `RiskFindings`, `RiskReport` | the risk service: its decisions, findings and report |

## What is assumed

- A locked method is one step; a transaction commits or has no effect. The digest of an audit event is
  a function parameter (injective only where a theorem says so). New identifiers are made from tokens
  that were not used before; the clock is a counter, so no two versions share a time and the
  tie-break by digest among equal times never decides.
- The surroundings of a call are parameters: the bytes found in the blob store, a removal that raises,
  the chunk whose insertion raises, the receipt the adapter returns, an audit write that fails behind an
  indexing, the write of a completed command that fails, and the file whose capture raises during a poll. A
  file written while a poll is under way is one written after it; if that makes its capture raise, the
  parameter says so.
- **Prepare and dispatch** hold no lock from end to end (src/indexguard/pipeline.py:55-103,
  src/indexguard/operations.py:168-196). Runs hold them whole and in parts: storing an analysis put together
  before, starting a dispatch, failing one, with any other step in between. `Interleaving` adds the
  preparations under way, each with the current version it read and the version it was allocated, and
  proves that what comes of them is a run, so that the theorems over runs are theorems over interleavings.
  Recording an analysis and its first request stay one step.
- **Guarded runs**: removals do not raise, and an analysis is dispatched only where the console offers
  it; in parts, a dispatch fails only where it would still be offered. Nothing is asked of commands, because
  the gateway refuses what it does not offer. Approval, quarantine, replays, lost updates and the chains of
  the logs need no guard.
- **Searches**: the digest of a candidate, or of a watched file, is 64 lower-case hexadecimal digits, as
  SHA-256 yields them, and the chunk size is at most 16,000 characters (it is 800 by default). Nothing is
  asked of the names of documents.
- Text extraction, diffs, risk patterns, case folding and tokenising are uninterpreted functions.

## What the proofs turned up

- Window ends of `split_text` never step back, for any overlap below the chunk size.
- "Only approved content is indexed" needs no guard on dispatches or commands. It fails exactly at an
  approval that would have indexed its candidate in calm surroundings, whose digest was not approved for the
  document before, which stays in the index, and behind which no completed command is recorded: the gate's
  audit write fails and so does the compensating removal, or the write of the completed command fails after
  the gate has indexed (`ApprovalSafety.NextKeepsApproved`). Such a run exists from every empty gateway; one
  failing write is enough (`FirstApproval.EscapeIsReachable`).
- Interleaved preparations cost the numbering of versions and nothing else. Approval, quarantine, results,
  replays, lost updates and the logs are as on any run (`Interleaving.OpenRunsAreRuns`); the attempts still
  form chains that lead to a live analysis, and each version still has an original and the versions below it
  (`Interleaving.OpenRunsAreNumbered`). What is lost is that a version has one original and one live analysis:
  that holds exactly if no version is recorded after another original of its document that its allocation
  had not counted. Two overlapping preparations of one new document break it
  (`Interleaving.CollisionIsReachable`). A dispatch that fails after B's answer breaks the console's trust,
  though it was offered when it was started (`DispatchWitnesses.LateFailureLosesTrust`).
- From the evidence to the state: once B's first answer to the logged request is submitted, the analysis awaits
  approval exactly if A admits the candidate, the digests are well formed and the evidence is quiet; it is on hold
  exactly if the evidence is neither quiet nor grave; and it is quarantined in every other case
  (`EndToEnd.EvidenceDecides`). A BLOCK quarantines on every run (`Answers.BlockQuarantines`).
- The gate is not safe by refusing everything: preparing, allowing and approving a clean candidate in calm
  surroundings indexes it if and only if it was not the current version already. B's ALLOW is first
  held, and a hold takes the candidate's digest out of the index even when that is the trusted current
  version; the approval is then refused as stale (`FirstApproval.FirstApprovalIndexesExactly`).
- The console's dispatch guard is exact: on a sound state a failed dispatch leaves the status trusted if
  and only if the console offered the dispatch (`AuthoritySafety.FailedDispatchExactly`).
- Taking a failed audit write back restores the version that was current before if and only if that was
  not the candidate itself.
- Of the promises about commands only one needs the guard: what is completed under a key stays completed,
  and its repetition changes nothing and repeats the first answer, on every run (`CommandSafety.ReplayRepeats`).
- Undo of one entry is an exact inverse on the index if and only if the entry did not re-index a digest
  already stored for its path. A restore of many entries is one if and only if no version stored where
  it stops is first reviewed, among the entries taken back, by being indexed again: a digest that was
  first deleted, or first stored, within the restored entries comes back right. Accepting a, b and a again
  and restoring the third review leaves b alone (`QueueWitnesses.RestoreLosesVersion`). A repeated restore is a
  no-op if and only if the first one undid at most 256 entries, because only that many identifiers are
  remembered; after 257 the repetition is refused (`QueueWitnesses.RepeatIsRefused`).
- Rejecting and restoring re-scan without applying events, and so does a poll in which the capture of a file
  raises: the scan is saved before, and the events from that file on are lost. A path is *settled* if its
  file was not written since the last poll, or has no item and calls for none. Rejecting keeps the queue in
  step exactly if every other path is settled; restoring, exactly if every path it leaves alone is settled
  and no path it restores was first reviewed by an accepted deletion; a poll, exactly if every change it
  does not get to is settled. `QueueWitnesses` reaches each way of falling out of step from an empty queue.
- A held item stays held through any number of polls, whatever is due, and whatever is indexed automatically was
  last assessed as needing no review (`AutoIndexing.WaitingStays`, `AutoIndexing.AutoIndexedWasCleared`). But an
  assessment that is still under way overrides the hold when it ends: it is dropped only if the file changed
  meanwhile, so a held item can be indexed without the operator (`QueueWitnesses.LateAssessmentOverridesHold`).
- After a deletion is accepted for a document that keeps an older version, that version is current, so
  accepting a later addition of the same path fails as stale (`QueueSafety.AdditionNeedsEmptyDocument`,
  `QueueWitnesses.AdditionIsRefused`).
- A blocked document may be reported without any severe finding: deduplication ignores the severity and
  keeps the first of two alike findings, and the report is cut at 100. For every intact request this
  happens exactly if no severe finding is both the first of its key and among the first 100 distinct
  ones (`RiskReport.BlockIsUnexplainedExactly`). Within 100, only a milder change between the same dates
  hides a severe one, or an artifact bearing the type and reason of a number change without numbers
  (`RiskReport.MaskedExactly`). The decision itself is not affected.
- A search of one document is always answered validly. A search of all documents is, exactly if every
  matching row that fewer than `limit` others outrank belongs to a document whose name has 1 to 200
  characters (`Search.ResponsesAreValidExactly`). Nothing else ensures that: a document of the review queue
  is named `watch:` and its path, so a file with a path of more than 194 characters is accepted and indexed,
  and a search that finds it is refused (`QueueWitnesses.LongNameIsRefused`).
- A relationship target that climbs to the root and descends to a member never arrives if the member's
  path holds a colon anywhere, though such a member can be read (`SafeZip.RelativeTargetArrives`).
- The read budget of the ZIP reader can never be exceeded once the directory was accepted: the branch
  that reports it is dead.

## Model

| member | source | states |
|---|---|---|
| `TextSplitter.Split` | src/indexguard/rag/indexer.py:311-337 | the loop ends for every text and overlap below the size, and yields the stripped windows in order |
| `TextSplitter.NormalizeKeepsInk` | src/indexguard/rag/indexer.py:314-316 | normalisation drops and moves whitespace only |
| `TextSplitter.LinesExactly` | src/indexguard/rag/indexer.py:314 | a text is split where its first line ends, whatever ends it: "\r\n" is one end, and the rest is split alike |
| `TextSplitter.JoinedLines` | src/indexguard/rag/indexer.py:314 | what is joined are the stripped lines, no more and no fewer |
| `TextSplitter.WindowEndsAtBreak` | src/indexguard/rag/indexer.py:322-329 | a window that does not reach the end of the text stops at the last newline or space of its second half, and is full if there is none |
| `TextSplitter.EndsNeverStepBack` | src/indexguard/rag/indexer.py:320-336 | a window never ends before the one before it ended, for every overlap |
| `TextSplitter.WindowLaws` | src/indexguard/rag/indexer.py:320-336 | windows have at most the chunk size, leave no gap, share exactly the overlap (or nothing, if the first is not longer), and the last reaches the end |
| `TextSplitter.WindowCount` | src/indexguard/rag/indexer.py:320-336 | with overlap below half the size there are at most 1 + length / (size/2 - overlap) windows |
| `TextSplitter.ChunksCoverText` | src/indexguard/rag/indexer.py:311-337 | chunks are placed in order in the normalised text, none is empty or longer than the size, and every non-space lies in one |
| `TextSplitter.EmptyExactlyWhenBlank` | src/indexguard/rag/indexer.py:149-151 | there are no chunks, and indexing is refused, exactly for a text of whitespace |
| `VersionedIndex.PromoteLaws` | src/indexguard/rag/indexer.py:181-205 | indexing makes the version current, adds no other and never duplicates a digest |
| `VersionedIndex.WithoutLaws` | src/indexguard/rag/indexer.py:246-265 | removing a version removes that digest and no other |
| `VersionedIndex.CompensationExactly` | src/indexguard/rag/gate.py:204-217 | indexing and removing again restores the current version iff it was not the candidate |
| `VersionedIndex.UndoPromoteExactly` | src/indexguard/change_queue.py:746-766 | removing what was indexed restores the list iff the digest was not stored before |
| `VersionedIndex.UndoRemoveCurrent` | src/indexguard/change_queue.py:748-759 | indexing the removed current version again restores the list |
| `SqliteIndexer.Indexer.IndexAtomic` | src/indexguard/rag/indexer.py:141-234 | compare with the current version, then move to front with chunks 0..n-1; on every failure both tables are as before |
| `SqliteIndexer.Indexer.Transact` | src/indexguard/rag/indexer.py:164-234 | the transaction alone: stale and failed writes change nothing |
| `SqliteIndexer.Indexer.WriteChunks` | src/indexguard/rag/indexer.py:292-309 | writes chunk rows 0..n-1 unless an insertion raises |
| `SqliteIndexer.Indexer.RemoveAtomic` | src/indexguard/rag/indexer.py:236-290 | deletes one version from the list, and its newest predecessor becomes current if it was; a statement that raises leaves both tables as before |
| `SqliteIndexer.Indexer.GetCurrent` | src/indexguard/rag/indexer.py:339-349 | the current row is the head of the list |
| `SqliteIndexer.IndexedRepresents` | src/indexguard/rag/indexer.py:181-234 | the tables after indexing stand for the list with the version moved to its front |
| `SqliteIndexer.RemovedRepresents` | src/indexguard/rag/indexer.py:244-290 | the tables after a removal stand for the list without the version |
| `SqliteIndexer.NextIsNewest` | src/indexguard/rag/indexer.py:266-276 | the newest row left after deleting the current one is the next version of the list, and there is one iff the list has one |
| `SqliteIndexer.ListIsDetermined` | src/indexguard/rag/indexer.py:106-139 | tables stand for one list only |
| `Search.ScoreRows` | src/indexguard/rag/indexer.py:513-535 | matches only, by falling score, then by document and place, cut at the limit; what is left out scores at most as much as every result |
| `Search.SelectCurrentRows` | src/indexguard/rag/indexer.py:473-499 | the join yields every chunk of every current version in scope exactly once |
| `Search.SearchSnapshot` | src/indexguard/rag/indexer.py:456-500 | the response holds the best current rows, best first, with the current digest of the scope; it is the one every enumeration of the rows gives |
| `Search.TopHitsAreBest` | src/indexguard/rag/indexer.py:513-535 | results never rise in score, equal ones stand by document and place, and nothing that matches is left out but for want of room, and then it scores at most as much as every result |
| `Search.BeforeExactly` | src/indexguard/rag/indexer.py:534 | documents are compared at the first place where they differ |
| `Search.TopHitsAreDetermined` | src/indexguard/rag/indexer.py:513-535 | the ranked prefix does not depend on the order of the rows |
| `Search.TopHitsShowExactly` | src/indexguard/rag/indexer.py:513-535 | a row is answered iff it matches and fewer than `limit` matching rows come before it |
| `Search.ResponsesAreValid` | src/indexguard/contracts.py:212-246 | over documents named within the bounds every response meets the validators: one digest per scope, no duplicate identity, positive scores, text bounds |
| `Search.ResponsesAreValidExactly` | src/indexguard/contracts.py:212-246 | over any index a scoped response always meets them, and an unscoped one iff every row that matches and is outranked by fewer than `limit` others has a document of 1 to 200 characters |
| `Search.ResponsesAgree` | src/indexguard/pipeline.py:152-169 | two searches of one index answer alike |
| `SearchSafety.ReachableResponsesAreValidExactly` | src/indexguard/pipeline.py:152-169 | the same for every index any run of the gateway, as the only writer, reaches, whatever its documents are called |
| `QueueSearch.QueueResponsesAreValidExactly` | src/indexguard/change_queue.py:676-766 | the same for every index any run of the review queue reaches |
| `QueueSearch.WatchedDocumentFitsExactly` | src/indexguard/contracts.py:212-214 | a document of the review queue is named within the bounds iff its path has at most 194 characters |
| `QueueWitnesses.LongNameIsRefused` | src/indexguard/change_queue.py:676-699 | the queue accepts a file with a longer path, and the answer to every search that finds it fails its validators |
| `AuditChain.Verify` | src/indexguard/audit.py:423-459 | the loop decides whether every event is numbered, linked and hashed as an append would have it |
| `AuditChain.AppendVerifies` | src/indexguard/audit.py:263-326 | every append keeps the chain valid |
| `AuditChain.VerifiesExactlyBuilt` | src/indexguard/audit.py:423-459 | accepted are exactly the non-empty logs that appends can build |
| `AuditChain.BuiltHolds` | src/indexguard/audit.py:263-326 | a log holds the payloads appended to it, in their order and with their times |
| `AuditChain.LastHashPinsLog` | src/indexguard/audit.py:490-508 | under an injective digest two valid logs with one last digest are equal and of one analysis, so edits, drops, moves and swaps are detected |
| `Gateway.HardBlockingArtifacts` | src/indexguard/rag/gate.py:290-308 | the loop collects exactly the artifacts that block |
| `Gateway.AuditStore.AppendEvent` | src/indexguard/audit.py:240-326 | one event is appended to one log and nothing else changes; an unknown analysis is refused |
| `Gateway.AuditStore.RecordPrepared` | src/indexguard/audit.py:135-225 | a new analysis starts its own log; the same one again changes nothing; other content under its identifier, or a candidate without its bytes, is refused |
| `Gateway.AuditStore.VerifyChain` | src/indexguard/audit.py:423-459 | whether the stored log verifies; an unknown analysis is refused |
| `Gateway.AuditStore.NextDocumentVersion` | src/indexguard/audit.py:375-392 | one more than the highest version of an original analysis of the document |
| `Gateway.IndexGate.Apply` | src/indexguard/rag/gate.py:42-56 | the class does to its store and index what the step function says |
| `Gateway.IndexGate.ApplyAudited` | src/indexguard/rag/gate.py:76-217 | chain check, quarantine check, policy record, verdict, in that order |
| `Gateway.IndexGate.IndexCandidate` | src/indexguard/rag/gate.py:174-217 | index, check the receipt, record, and take back when recording fails |
| `Gateway.IndexGate.Hold` | src/indexguard/rag/gate.py:58-74 | a hold removes the candidate and records the outcome |
| `Gateway.IndexGate.Deny` | src/indexguard/rag/gate.py:243-269 | a denial removes the candidate unless told not to, and reports a failed removal as still indexed |
| `GateLaws.ApplyContains` | src/indexguard/rag/gate.py:76-279 | whatever does not index leaves no trace of the candidate and nothing else changed; a stale denial removes nothing |
| `GateLaws.HoldContains` | src/indexguard/rag/gate.py:58-74 | the same for a hold |
| `GateLaws.QuarantineIsFinal` | src/indexguard/rag/gate.py:101-106 | once a quarantine is logged, no call indexes: it at most removes the candidate |
| `Quarantine.QuarantinedIsNeverIndexed` | src/indexguard/rag/gate.py:101-106 | on every run a logged quarantine stays logged, and every later step about that analysis leaves the index alone or removes its candidate |
| `GateLaws.JudgeAdmits` | src/indexguard/rag/gate.py:110-172 | the checks pass exactly for a bound, complete ALLOW on the recorded analysis with its own bytes and no blocker |
| `GateVerdicts.HeldExactly` | src/indexguard/rag/gate.py:76-163 | the outcome is HOLD iff the policy is valid and completed, the log verifies and holds no quarantine, every record names the other, nothing blocks, and B asks for a review or allows what C has not approved |
| `GateVerdicts.QuarantinedExactly` | src/indexguard/rag/gate.py:76-202 | a BLOCK, a failed analysis, a broken binding or a blocking artifact is quarantined, whatever fails around the call; and exactly when else |
| `GateVerdicts.RecordsExactly` | src/indexguard/rag/gate.py:87-108 | the gate logs the policy it heard, or that it was none, and then its outcome, and nothing else |
| `GateVerdicts.OutcomeIsRecorded` | src/indexguard/rag/gate.py:219-269 | the last event is the very outcome that is answered: about this candidate, and indexed only if it is or its removal failed |
| `GateVerdicts.HoldsExactly` | src/indexguard/rag/gate.py:58-74 | the answer is HOLD exactly for a recorded analysis, given as recorded, whose log verifies, and else QUARANTINE; it is logged, last and alone, unless the analysis is unknown or its log does not verify, in which case no log changes |
| `GateVerdicts.UnauditedIsRefused` | src/indexguard/rag/gate.py:76-106 | a call on an unknown analysis, or on one whose log does not verify, is quarantined and takes the candidate out; only an input that is no policy leaves a trace in a log |
| `GateVerdicts.HoldIsRecorded` | src/indexguard/rag/gate.py:58-74 | a hold on a recorded analysis whose log verifies is a hold, and is logged |
| `GateVerdicts.RefusedIndexing` | src/indexguard/rag/gate.py:175-187 | an approved candidate prepared against another version than the current one is refused and the index stays as it was; one without text, or whose writing raises, is refused and taken out |
| `GateVerdicts.IndexCounts` | src/indexguard/rag/gate.py:193-202 | an indexing reports the chunks its receipt counts |
| `GateVerdicts.BlockersAreNamed` | src/indexguard/rag/gate.py:151-154 | a candidate that is bound but not clear is refused, naming every type that blocks and no other |
| `GateLaws.IndexesExactly` | src/indexguard/rag/gate.py:76-217 | a call indexes iff every check passes, the current version is the expected one and nothing around it fails; then the version in front of the list is the candidate |
| `GateLaws.AuditFailureIsCompensated` | src/indexguard/rag/gate.py:204-217 | a failing audit write raises, the candidate is taken back, and the old version is current again iff it was another one |
| `Service.AnalysisOperations.Prepare` | src/indexguard/pipeline.py:55-103 | succeeds iff the baseline is what is current, both uploads are of one known format and both can be extracted; then the analysis and its first request are recorded, else nothing is |
| `Service.AnalysisOperations.EnsureRequest` | src/indexguard/operations.py:51-88 | one request per analysis, logged once; an unknown analysis is refused |
| `Service.AnalysisOperations.Submit` | src/indexguard/operations.py:120-166 | the class does what the step function says, conflicts included |
| `Service.AnalysisOperations.Dispatch` | src/indexguard/operations.py:168-196 | the same for a dispatch, whether the analyzer answers or raises |
| `Service.AnalysisOperations.Execute` | src/indexguard/operations.py:198-281 | the same for a command, fresh, replayed or refused |
| `Service.AnalysisOperations.GetStatus` | src/indexguard/operations.py:283-328 | the status is the fold of the log; an unknown analysis is refused |
| `Service.AnalysisOperations.CreateReanalysis` | src/indexguard/operations.py:336-356 | a new attempt on the same evidence, which supersedes the old one, or a refusal without the candidate's bytes |
| `Service.ReadProgress` | src/indexguard/operations.py:288-312 | the loop over the events computes the fold |
| `Service.FindPolicy` | src/indexguard/operations.py:384-388 | the policy of the last submission applied, and that none was applied after it |
| `Service.FindCompleted` | src/indexguard/operations.py:390-401 | the last command completed under a key, and that none was after it |
| `Service.FindRequest` | src/indexguard/operations.py:358-362 | the last request logged, and that none was logged after it |
| `Service.FindSubmission` | src/indexguard/operations.py:364-375 | the last submission received for a request, and that none was after it |
| `Service.IsApplied` | src/indexguard/operations.py:377-382 | whether a submission was applied for a request |
| `Conversations.RunsConverse` | src/indexguard/operations.py:51-88 | in every state of every run each analysis has one request, which carries its identifier, document, version, attempt, author, both digests, both texts and its diff; at most one answer to it was received, bound to its candidate; and only that one was applied, once |
| `Answers.AnswerDecides` | src/indexguard/operations.py:120-166 | on every run: a submission is taken iff it answers the logged request of an analysis not superseded, is bound to its candidate and was not answered otherwise; a refused or repeated one changes nothing; the first one decides the state |
| `Answers.BlockQuarantines` | src/indexguard/operations.py:150-166 | on every run an applied BLOCK, or a failed analysis, leaves QUARANTINED |
| `CommandLaws.OffersExactly` | src/indexguard/operations.py:421-440 | which commands are offered in which state, once each and in order |
| `CommandLaws.CommandDecides` | src/indexguard/operations.py:198-281 | on every run: a command succeeds iff it is new, names the candidate, is offered in that state and nothing around it fails, or repeats one that did; one that is not due changes nothing; a hold ends ON_HOLD, an approval INDEXED or QUARANTINED, a reanalysis SUPERSEDED |
| `CommandLaws.HoldSucceeds` | src/indexguard/operations.py:245-249 | a due hold succeeds unless its recording fails, and answers the gate's hold |
| `CommandLaws.ApproveSucceeds` | src/indexguard/operations.py:229-244 | a due approval succeeds unless a write behind it fails, and indexes iff the gate may |
| `CommandLaws.ReanalyzeSucceeds` | src/indexguard/operations.py:250-264 | a due reanalysis succeeds iff the bytes are there and its recording does not fail, and leaves a new analysis that waits for B |
| `Records.StoringWrites` | src/indexguard/operations.py:51-88 | a new analysis starts its log with itself and its request |
| `Records.PreparingWrites` | src/indexguard/pipeline.py:80-103 | preparing stores the two snapshots, their diff, the current version, the author and the time, and starts the log; or refuses exactly where the baseline is not the current version |
| `Records.ReanalysisWrites` | src/indexguard/operations.py:336-358 | a reanalysis repeats the evidence as a further attempt made now, writes the succession into the old log, and starts the new one |
| `Records.DispatchWrites` | src/indexguard/operations.py:168-195 | a dispatch is logged as started, and as failed if the analyzer raises |
| `Records.AnswerWrites` | src/indexguard/operations.py:143-166 | an answer is logged as received, as the gate heard it, and as applied with the gate's outcome |
| `Records.HoldWrites` | src/indexguard/operations.py:245-275 | a hold is logged as the gate's hold and as the completed command with that outcome |
| `Records.CommandTakesOut` | src/indexguard/operations.py:254-264 | a due hold or reanalysis takes the candidate out of the index unless its removal fails, even where the command fails afterwards, and says so |
| `Records.ApproveWrites` | src/indexguard/operations.py:229-275 | an approval is logged as the gate heard B's policy and as the completed command |
| `Records.OutcomeIsLast` | src/indexguard/operations.py:283-311 | the outcome reported is that of the last event that bears one, and none without such an event |
| `Records.StatusTells` | src/indexguard/operations.py:313-328 | a status names its analysis field by field, tells truly whether the log verifies, and reports the last policy and outcome and exactly what is offered |
| `EndToEnd.LoggedRequestIsIntact` | src/indexguard/risk_engine.py:523-536 | B finds the logged request intact iff the four digests are well formed |
| `EndToEnd.ServiceAnswerIsTakeable` | src/indexguard/operations.py:120-143 | with any judge, B's answer to the logged request is taken unless the analysis was superseded or answered otherwise |
| `EndToEnd.EvidenceDecides` | src/indexguard/risk_engine.py:159-217 | from the evidence to the state the analysis is in once B's first answer is submitted |
| `Runs.NextGrows` | src/indexguard/audit.py:263-326 | no step loses or changes an analysis or an event, no log stops verifying, and only a command completes commands |
| `Runs.RunsAreChained` | src/indexguard/audit.py:423-459 | every log in every state of every run verifies, guarded or not |
| `Runs.CommandExecutes` | src/indexguard/operations.py:198-281 | on any state and in any surroundings: a command that succeeds is recorded as completed behind everything else it records, one that fails is not, and one that is not fresh records nothing |
| `ApprovalSafety.OnlyApprovedIsIndexed` | src/indexguard/operations.py:198-252 | up to any state of any run each stored version has an analysis whose log holds an applied ALLOW + INDEX bound to the digest and an approval naming it, exactly if no step escaped |
| `ApprovalSafety.NextKeepsApproved` | src/indexguard/operations.py:120-281 | each single step keeps that, exactly unless it escapes: an approval of a digest not approved before, due to index, that stays in the index while the write of the gate or of the completed command fails |
| `ApprovalSafety.ApproveKeepsExactly` | src/indexguard/rag/gate.py:204-217 | the same for every approval, whatever fails around it |
| `ApprovalSafety.RaisesExactly` | src/indexguard/rag/gate.py:174-217 | the gate raises iff the audit write fails behind an indexing that was due and well received |
| `FirstApproval.EscapeIsReachable` | src/indexguard/operations.py:240-277 | from every empty gateway a run of three steps ends with an unapproved version stored, if the write of the completed command fails, or the gate's own write and the removal behind it |
| `FirstApproval.FirstApprovalIndexesExactly` | src/indexguard/operations.py:120-252 | after prepare and an ALLOW, the approval succeeds, and it indexes the candidate iff that was not the current version before |
| `FirstApproval.ApprovalIndexesExactly` | src/indexguard/operations.py:229-252 | an analysis that awaits approval is indexed iff the current version is the expected one |
| `FirstApproval.AllowIsHeld` | src/indexguard/rag/gate.py:158-163 | an ALLOW that is not yet approved is held, and the hold takes the candidate's digest out |
| `LogViews.ApplyTouches` | src/indexguard/operations.py:283-328 | what one gate call adds to what the log of an analysis reads as |
| `StepEffects.NextHasEffect` | src/indexguard/operations.py:51-356 | every guarded step extends one log, adds an original or supersedes one analysis by another |
| `AuthoritySafety.GuardedRunsAreTrusted` | apps/dashboard/state.py:24-256 | on guarded runs the console finds no issue with any analysis, and REANALYZE is effective exactly until it is superseded |
| `AuthoritySafety.GuardedRunsAreSound` | src/indexguard/operations.py:283-328 | the inductive invariant behind it |
| `ConsoleLaws.TrustedExactly` | apps/dashboard/state.py:24-313 | the console finds no issue iff status and analysis agree field by field, the diff is between the two versions, the log verifies, policy and outcome are about the candidate and call for the state, and what is offered is safe; what it then offers |
| `AuthoritySafety.FailedDispatchExactly` | apps/dashboard/state.py:305-313 | a failed dispatch leaves the status trusted iff the console offered the dispatch |
| `DispatchWitnesses.FailedDispatchLosesTrust` | src/indexguard/operations.py:179-195 | from every empty gateway: a dispatch after B's ALLOW that raises ends with an authority issue |
| `CommandSafety.ResultsMatch` | apps/dashboard/api_client.py:362-417 | every result on guarded runs, fresh or replayed, is one the client accepts |
| `CommandSafety.ReplayRepeats` | src/indexguard/operations.py:390-401 | on every run, guarded or not, a repeated command returns the saved outcome and replacement and changes nothing, however much later |
| `CommandSafety.StaysCompleted` | src/indexguard/operations.py:390-401 | on every run what is completed under a key stays completed, with its result |
| `Lineage.ExactlyOneLive` | src/indexguard/operations.py:336-356 | if every version was stored while it was the next one, each document version has exactly one analysis that is not superseded |
| `Lineage.OriginalsAreNumbered` | src/indexguard/audit.py:375-392 | on the same runs the originals of a document carry the versions 1..n, one each |
| `Interleaving.OpenRunsAreRuns` | src/indexguard/pipeline.py:55-103 | however preparations and dispatches interleave, the gateway takes a run: every theorem over runs holds |
| `Interleaving.OpenRunsIndexOnlyApproved` | src/indexguard/pipeline.py:55-103 | so only approved content is indexed, exactly if no approval escaped |
| `Interleaving.OpenRunsKeepQuarantine` | src/indexguard/pipeline.py:55-103 | and a quarantine is for good |
| `Interleaving.OpenRunsAreNumbered` | src/indexguard/audit.py:375-392 | each version that is stored has an original, and so has every version below it, whether or not preparations overlapped |
| `Interleaving.NumberingHoldsExactly` | src/indexguard/pipeline.py:68-102 | up to any state of any guarded interleaving each version has one original and one live analysis, exactly if no version was recorded after another original of its document that was not counted for it |
| `Interleaving.StillNextExactly` | src/indexguard/audit.py:375-392 | an allocated version is still the next one iff no other original of the document was recorded since |
| `Interleaving.OpenRunsAreTrusted` | apps/dashboard/state.py:24-256 | however preparations and dispatches interleave, the console finds no issue with any analysis, if dispatches fail only while it would still offer them; and the attempts form chains that lead to a live analysis |
| `Interleaving.LateFailureExactly` | src/indexguard/operations.py:179-195 | a dispatch that fails leaves the status trusted iff the console would still offer it at that time |
| `DispatchWitnesses.LateFailureLosesTrust` | src/indexguard/operations.py:179-195 | from every empty gateway: a dispatch that was offered when it was started, and fails after B's ALLOW, ends with an authority issue |
| `Interleaving.CollisionIsReachable` | src/indexguard/pipeline.py:68-102 | two overlapping preparations of one new document lose the numbering |
| `Lineage.ChainsReachAnOriginal` | src/indexguard/operations.py:336-356 | every analysis ends a linear chain of attempts 1, 2, .. on constant evidence |
| `Lineage.ReplacementIsTrusted` | apps/dashboard/state.py:259-293 | a reanalysis that succeeds adds a replacement, and the console finds no issue with any replacement when it is added |
| `Lineage.GuardedRunsAreChained` | src/indexguard/operations.py:254-264 | in every state of every guarded run the attempts form linear chains, each leading to a live analysis |
| `Lineage.GuardedRunsAreOrderedExactly` | src/indexguard/audit.py:375-392 | up to any state of any guarded run versions are numbered 1..n with one live analysis each, exactly if every version was stored while it was the next one |
| `LostUpdates.IndexingReplacesBaseline` | src/indexguard/rag/indexer.py:164-180 | an indexing replaces the version the analysis was prepared against, which is the baseline of its diff |
| `LostUpdates.SecondNeedsReturn` | src/indexguard/rag/gate.py:115-187 | of two analyses on one current version the second indexes only after a step brought that version back |
| `Scanner.Events` | src/indexguard/scanner.py:241-256 | one event for each listed path whose digest changed, in order |
| `Scanner.EventsLeadToCurrent` | src/indexguard/scanner.py:259-280 | the events carry the saved snapshot to the new one |
| `WatchedDirectory.DirectoryChangeQueue.PollOnce` | src/indexguard/change_queue.py:177-196 | scan, apply the events up to one whose capture raises, drop reverted items, index what is due |
| `WatchedDirectory.DirectoryChangeQueue.ApplyEvent` | src/indexguard/change_queue.py:338-422 | one event sets or clears the item of its path, unless its capture raises before anything changed |
| `WatchedDirectory.DirectoryChangeQueue.Accept` | src/indexguard/change_queue.py:213-224 | index, commit, record, or leave everything as it was |
| `WatchedDirectory.DirectoryChangeQueue.AcceptItem` | src/indexguard/change_queue.py:676-699 | the accepted change moves from the items to the history |
| `WatchedDirectory.DirectoryChangeQueue.AutoAccept` | src/indexguard/change_queue.py:567-594 | a failed automatic accept hands the item to the operator |
| `WatchedDirectory.DirectoryChangeQueue.Reject` | src/indexguard/change_queue.py:226-248 | the file goes back to its baseline, and the cursor moves |
| `WatchedDirectory.DirectoryChangeQueue.HoldForReview` | src/indexguard/change_queue.py:324-336 | an item is held back from automatic indexing; an unknown one is refused |
| `AutoIndexing.WaitingStays` | src/indexguard/change_queue.py:567-594 | on every run a held item is still there, as it was, after any number of polls, whatever is due, any holds and any steps on other paths; its document's versions are as they were and nothing was indexed for it |
| `AutoIndexing.AutoIndexedWasCleared` | src/indexguard/change_queue.py:567-594 | whatever a run indexes automatically, a poll does when it is due; and that very item was last assessed as needing no review, and neither held, changed nor assessed since |
| `AutoIndexing.HoldHolds` | src/indexguard/change_queue.py:324-336 | a hold makes its item wait for the operator |
| `AutoIndexing.FailedAutoAcceptHolds` | src/indexguard/change_queue.py:583-592 | so does an automatic accept that fails |
| `AutoIndexing.RestoreHolds` | src/indexguard/change_queue.py:736-744 | so does a restore that takes a review of its path back |
| `QueueWitnesses.LateAssessmentOverridesHold` | src/indexguard/change_queue.py:425-470 | from every empty queue: an item is held, its assessment then ends with no review required, and the next poll indexes it |
| `WatchedDirectory.DirectoryChangeQueue.UndoEntry` | src/indexguard/change_queue.py:721-744 | one entry is undone in the index, on disk, in the accepted map and in the items; an undo that raises has put a deleted file back |
| `WatchedDirectory.DirectoryChangeQueue.UndoDownTo` | src/indexguard/change_queue.py:277-287 | the loop undoes the entries last first, up to the first that raises |
| `WatchedDirectory.DirectoryChangeQueue.RestoreHistoryBefore` | src/indexguard/change_queue.py:257-296 | the class does what the step function says, also when an undo raises midway and the history stays |
| `QueueHistory.UndoLastIsConsistent` | src/indexguard/change_queue.py:721-744 | undoing the last entry never fails and gives back a consistent queue |
| `QueueHistory.RestoreReplaysPrefix` | src/indexguard/change_queue.py:257-296 | a restore keeps the prefix before the entry, and the accepted map is exactly its replay |
| `QueueHistory.EntryNamesBefore` | src/indexguard/change_queue.py:701-719 | every entry names what the history before it had accepted for its path |
| `QueueHistory.RepeatIsAbsorbedExactly` | src/indexguard/change_queue.py:266-286 | a repeated restore changes nothing, and answers 0 iff at most 256 entries were undone |
| `QueueHistory.UnindexIsInverseExactly` | src/indexguard/change_queue.py:746-766 | undoing one entry gives every document its old list iff the entry re-indexed nothing stored |
| `QueueWitnesses.RepeatIsRefused` | src/indexguard/change_queue.py:266-286 | from every empty queue: 257 reviews, whose restore succeeds and whose repeated restore is refused as unknown |
| `IndexUndo.RestoreRestoresIndexExactly` | src/indexguard/change_queue.py:257-296 | a restore gives every document the ordered versions it had just before the entry, iff none of them is first reviewed in between by being indexed again |
| `IndexUndo.LostExactly` | src/indexguard/change_queue.py:746-766 | which digests a restore takes out: those whose first review among the entries indexes them |
| `QueueWitnesses.RestoreLosesVersion` | src/indexguard/change_queue.py:746-766 | from every empty queue: accepting a, b and a again and restoring the third review turns the list b, a into b |
| `QueueSafety.RunsAreConsistent` | src/indexguard/change_queue.py:676-744 | on every run the accepted map is the replay of the history |
| `QueueSafety.PendingIsDiff` | src/indexguard/change_queue.py:338-422 | up to any state of any run a path has an item iff its scanned digest differs from the accepted one and the texts do not match, and the item names those digests, exactly if every step was quiet |
| `QueueLaws.PendingExactly` | src/indexguard/change_queue.py:338-422 | while the queue is in step a path is pending iff its file was added, removed or changed and does not read as it did, and the item says which of the three |
| `QueueLaws.PollDropsReverted` | src/indexguard/change_queue.py:649-665 | after a poll of any queue no item is left whose two files can be extracted and read the same |
| `QueueLaws.RejectNeedsBaseline` | src/indexguard/change_queue.py:226-248 | on any queue a reject succeeds iff it is an addition or its baseline was kept, and else does nothing |
| `QueueLaws.RestoreNeedsSnapshots` | src/indexguard/change_queue.py:298-309 | on any queue a restore that needs a snapshot which is gone changes nothing |
| `QueueLaws.RestoreStops` | src/indexguard/change_queue.py:257-296 | on any queue a restore that fails midway has undone the entries behind the one that cannot be undone, put that one's deleted file back, and kept the history |
| `QueueSafety.RejectInStepExactly` | src/indexguard/change_queue.py:226-248 | rejecting keeps the queue in step iff every other path is settled |
| `QueueSafety.RestoreInStepExactly` | src/indexguard/change_queue.py:311-322 | restoring keeps the queue in step iff it restores no path first reviewed by an accepted deletion, and every other path is settled |
| `QueueSafety.PollInStepExactly` | src/indexguard/change_queue.py:177-196 | a poll keeps the queue in step iff every change from the raising one on is settled; one that does not raise always does |
| `QueueWitnesses.RejectDropsChange` | src/indexguard/change_queue.py:226-248 | from every empty queue: a file written after the poll is missed for good when another is rejected |
| `QueueWitnesses.RestoreDropsChange` | src/indexguard/change_queue.py:311-322 | the same when another is restored |
| `QueueWitnesses.RestoreReopensDeletion` | src/indexguard/change_queue.py:748-757 | restoring an accepted deletion reopens its item beside the file it puts back |
| `QueueWitnesses.RaisingPollDropsChange` | src/indexguard/change_queue.py:186-188 | a capture that raises drops its change, because the scan was saved before |
| `QueueSafety.UndoRestoresPath` | src/indexguard/change_queue.py:721-744 | undoing a suffix puts each path back to its first entry in it |
| `QueueSafety.IndexIsHistory` | src/indexguard/change_queue.py:676-766 | up to any state of any run the index is what the history makes of it, exactly if no restore lost a version stored where it stopped |
| `QueueSafety.AcceptedIsCurrent` | src/indexguard/change_queue.py:676-699 | while it is, everything accepted is current |
| `QueueSafety.AdditionNeedsEmptyDocument` | src/indexguard/change_queue.py:679-699 | an addition is accepted iff its document holds no version |
| `QueueWitnesses.AdditionIsRefused` | src/indexguard/change_queue.py:679-699 | from every empty queue: accepting a, b, the deletion of b, and then the addition of c, which is refused as stale |
| `DocxStyles.FailsExactlyOnCycles` | src/indexguard/extractors/docx.py:179-197 | resolving fails iff the `basedOn` chain comes back to a style |
| `DocxStyles.ResolvedChainsEnd` | src/indexguard/extractors/docx.py:179-197 | a resolved chain is no longer than there are styles |
| `DocxStyles.NearestDefinerWins` | src/indexguard/extractors/docx.py:191-197 | each property comes from the first style of the chain that defines it |
| `DocxStyles.EffectiveStyle` | src/indexguard/extractors/docx.py:208-240 | direct formatting, then run style, then paragraph style, then defaults; fails iff one of the chains is cyclic |
| `DocxStyles.HiddenExactly` | src/indexguard/extractors/docx.py:225-234 | text is hidden by a switch, by being near white on no background of its own, or by a size of at most one point, and by nothing else |
| `DocxStyles.StyleChosen` | src/indexguard/extractors/docx.py:213-218 | a run has the style it names, else the default one |
| `DocxStyles.PrevailingIsUnique` | src/indexguard/extractors/docx.py:208-223 | the value that prevails is determined |
| `SafeZip.NormalizeExactly` | src/indexguard/extractors/safe_zip.py:27-45 | a member name is accepted iff it is canonical, and then kept as it is |
| `SafeZip.NormalizeDirectory` | src/indexguard/extractors/safe_zip.py:34-37 | a directory entry is named by what stands before its slash |
| `SafeZip.ResolveTarget` | src/indexguard/extractors/safe_zip.py:188-215 | the stack of segments walks the target from the parent of the source |
| `SafeZip.WalkFailsExactly` | src/indexguard/extractors/safe_zip.py:203-212 | the walk fails iff some prefix climbs above the root or a segment is forbidden |
| `SafeZip.ResolvesExactly` | src/indexguard/extractors/safe_zip.py:188-215 | what is resolved is a canonical member name, and resolving succeeds exactly for relative targets that stay below the root |
| `SafeZip.RelativeTargetArrives` | src/indexguard/extractors/safe_zip.py:188-215 | climbing to the root and descending to a member arrives at it from every source, iff its path holds no colon |
| `SafeZipPackage.Package.ValidateDirectory` | src/indexguard/extractors/safe_zip.py:104-143 | accepts exactly the directories within all limits, with unambiguous names, and keeps their files by name |
| `SafeZipPackage.Package.ReadMember` | src/indexguard/extractors/safe_zip.py:145-170 | the total is the sum of the cached sizes and within the limit, and every read answers as a first read would |
| `SafeZipPackage.SumOfPart` | src/indexguard/extractors/safe_zip.py:166-168 | members read never add up to more than the members announced |
| `RiskService.AssessStaticRisk` | src/indexguard/risk_engine.py:252-451 | the loops compute score, findings and hard block of the evidence |
| `RiskService.StaticScoreMeans` | src/indexguard/risk_engine.py:252-451 | the score is 0 exactly for quiet evidence and else at least 30; there are findings exactly then, and a severe one exactly from 70 on |
| `RiskService.DeduplicateFindings` | src/indexguard/risk_engine.py:573-581 | the first finding of each key, in order |
| `RiskReport.DeduplicateLaws` | src/indexguard/risk_engine.py:573-581 | no key is lost, repeated or invented |
| `RiskReport.KeptExactly` | src/indexguard/risk_engine.py:573-581 | what is kept is exactly the first finding of each key, at its place |
| `RiskReport.SevereIsReportedExactly` | src/indexguard/risk_engine.py:439-443 | a severe finding is reported iff one is the first of its key and among the first 100 distinct ones |
| `RiskReport.BlockIsUnexplainedExactly` | src/indexguard/risk_engine.py:159-217 | without a judge a document is blocked with nothing severe reported iff the request is intact, something severe was found, and none of it shows |
| `RiskReport.MaskedExactly` | src/indexguard/risk_engine.py:335-385 | within 100 distinct findings that is so iff every severe finding stands behind a mild one: a change between the same dates, or an artifact posing as a number change without numbers |
| `RiskReport.BlockCanBeUnexplained` | src/indexguard/risk_engine.py:159-217 | an intact request that is blocked with nothing severe reported |
| `RiskService.AllowedExactlyWhenQuiet` | src/indexguard/risk_engine.py:159-217 | without a judge: ALLOW iff the request is intact and nothing changed, is embedded or hidden; BLOCK iff it is not intact or a severe finding was made |
| `RiskService.ConsultingRaises` | src/indexguard/risk_engine.py:171-204 | asking the judge never lowers the score, and an error leaves at least 50 |
| `RiskService.JudgeOnlyTightens` | src/indexguard/risk_engine.py:159-217 | with any judge the decision is never milder, never ALLOW after an error, and always valid and bound to the request |
| `RiskDecisions.DecidesExactly` | src/indexguard/risk_engine.py:159-217 | without a judge: BLOCK iff the request is not intact or the evidence grave, ALLOW iff intact and quiet |
| `RiskDecisions.GraveExactly` | src/indexguard/risk_engine.py:252-451 | the static score blocks iff there is a blocking or hiding artifact, hidden text, a changed number or date of a policy, or an injected instruction |
| `RiskDecisions.JudgedExactly` | src/indexguard/risk_engine.py:171-204 | with a judge: BLOCK iff it would be without, or the first opinion scores 70 or holds a severe finding; ALLOW iff it would be without, and the opinion was given, scores below 30 and holds low findings only |
| `RiskDecisions.IntactExactly` | src/indexguard/risk_engine.py:523-536 | a request is intact iff its diff is between its two versions and the four digests are 64 hexadecimal digits |
| `RiskDecisions.BrokenFailsClosed` | src/indexguard/risk_engine.py:220-249 | a request that is not intact is answered FAILED, BLOCK, 100, for one critical reason, bound to its candidate |
| `RiskDecisions.ReportsHeard` | src/indexguard/risk_engine.py:171-217 | the judge is heard in full: each opinion adds its findings, marked as its own, and raises the score to the largest of its own score and its findings' weights; the answer has that score and the first hundred different findings |
| `RiskFindings.ToldExactly` | src/indexguard/risk_engine.py:252-403 | the findings of the first four rounds are exactly those that artifacts, hidden text, numbers, dates and instructions call for |
| `RiskFindings.CombinedExactly` | src/indexguard/risk_engine.py:409 | what is read of a change is both sides with one space between them, or the only side that is there |
| `RiskFindings.MeaningExactly` | src/indexguard/risk_engine.py:408-427 | a change is found to bear on policy iff it speaks of policy, was not classified and is not shown by an earlier finding |
| `RiskFindings.ContentExactly` | src/indexguard/risk_engine.py:428-438 | a changed document about which nothing else was found is reported as changed |
| `RiskFindings.ScoreExactly` | src/indexguard/risk_engine.py:252-403 | the score is the largest weight of any piece of evidence |

## Left out

- HTTP, FastAPI, MCP, Streamlit, tokens, URL checks, rendering and the OpenAI client: no state worth proving.
- SQLite, threads and locks as mechanisms: each locked method is one step and each transaction is all or nothing.
- SHA-256, canonical JSON, UUIDs and wall clocks: a function parameter, fresh tokens and a counter stand for them.
- PDF, HWPX and XML parsing, text extraction, `document_diff.py`, regular expressions, Unicode normalisation, case folding: uninterpreted functions.
- Filesystem failures and crashes between two log appends, except the two failing writes behind an indexing and a failing capture.
- The bytes a failing capture leaves under the digest of the file it did not match: a later capture under that digest is not modelled as failing because of them.
- `list_pending_requests`, `list_statuses`, `list_items`, `list_history`, `wait_for_update`: views that would only add easy members.
- The spelling of artifact types (`_normalize_artifact_type`) and the wording of reasons and findings: a type is taken in its normalised form, and a reason is a code.
- The text units and artifacts inside a request, and its schema version and time: a request carries identity, digests, texts and diff; B's evidence adds the rest.
- The branch POLICY_COMBINATION_NOT_INDEXABLE of the gate: the validator of `PolicyResult` leaves it no case.
- Policy findings inside the audit log, file sizes, modification times and formats of scanned files: nothing modelled reads them.
- Background summaries and their retry timing: reduced to the change of an item's flags at their end, for the candidate they were started on.
- `stream.read` of a ZIP member beyond its bytes, CRC checks and `parse_xml`: what decompressing a member gives is a function of its entry.
- Floating point: the compression ratio, font sizes and search scores are real or integer numbers; NaN is not modelled.
- Scores of `_score_rows`: what the stripped query gives a chunk is an uninterpreted function of the two texts.
- The path of a candidate's blob when an analysis is recorded twice: blobs are stored by digest, so the same analysis names the same path.
- Interleavings between recording an analysis and its first request: the two are one step.
- Runs in which the gateway and the review queue write one index in turn: each has its own theorems, as the only writer; `Search.ResponsesAreValidExactly` covers any index, whoever wrote it.
- ApprovalSafety.OnlyApprovedIsIndexed: speaks of the gateway as the only writer; the directory queue indexes by its own reviews, without the gate, and has its own theorem.

Nothing was executed: the claims above are what the Dafny verifier checks.
