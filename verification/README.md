# BuffData: verified models

BuffData prepares training data with language models. Its model calls are opaque, but the code around them is a
set of protocols, state machines and algorithms. This project models those in Dafny and proves what they promise.

| files | subject |
|---|---|
| `RunTables`, `RunInvariants`, `RunTheorems`, `RunHistory`, `Store` | the managed-run store: its tables, its transactions as steps, the inductive invariant, the promises over every interleaving, what every stored field tells of the history, and the object with its methods |
| `Runner`, `RunService`, `Lineage` | operations made of several transactions with everybody else's in between: local runs; submission and resumption; and the search over parent links |
| `Schemas`, `Parsing`, `ItemText`, `TextExact` | dataset rows: parsing, serialising, reading and replacing their text; which rows parse to what, and what a row's text is |
| `Dedup`, `Classifier`, `ClassifierReplies`, `Sampling` | the algorithms the pipeline calls; what each reply of a provider makes of each row |
| `Pipeline`, `PipelineExact`, `PipelineScores`, `PipelineCongruence`, `PipelineResume`, `PipelineConservation`, `PipelineStrict`, `PipelineObject` | the seven stages, what each does to every row, what they cannot tell apart, checkpoints and resumption, row conservation, the strict contract, and the object with its loops |
| `Framing`, `Sandbox`, `SandboxTheorems`, `SandboxObject` | the plugin sandbox: wire format, request/response protocol, the object |
| `Limiter` | the sliding-window rate limiter |
| `Rouge`, `Sharding`, `Stratified` | ROUGE-L, label-balanced sharding with merge, class-balanced sampling |
| `Wrappers`, `Sequences` | `Option`, `Result`; choosing and replacing flagged rows |

Objects whose methods update fields are classes (`RunStore`, `OptimizationPipeline`, `PluginSandbox`,
`AsyncRateLimiter`, `Conversation`, `Stream`); each method is proved to do what a step or stage function says or, for a
sandbox call, to be some run of the protocol's steps, and the promises are proved about runs of those steps. Beside the
promises stand laws that fix each step or stage row by row without the functions that decide it (`RunHistory`,
`Parsing`, `TextExact`, `ClassifierReplies`, `PipelineExact`, `PipelineScores`). Concurrency
is interleaving of atomic steps. Between two transactions of one caller, `Store.RunStore.Interfere` stands for everybody
else: its contract allows any number of other transactions, and callers know nothing but that contract.

What is foreign to the modelled code is arbitrary: provider replies, plugins, the fast rule checks, redaction and
sorting are members of `Pipeline.Env`, fixed for a run and its resumptions; what happens to a child process or to a
sandbox call is a parameter of it; clocks, fresh ids, lease tokens, worker handlers, shuffles and the way a stream
splits its reads are unconstrained. Hashes and digests are taken as injective, JSON and floats as
exact.

Where the code and what its text promises differ, the model follows the code and says exactly when they agree:

- `run_local` looks at the manifest's truth value before verifying it, so an empty manifest is stored unverified on a
  succeeded run (`Runner.EmptyManifestIsPublishedUnverified`).
- A provider failure whose exception has an empty text leaves rows accepted with whatever labels they had
  (`Classifier.BatchSurvivorsExactly`, `UnlabelledSurvivorsExactly`, `SilentProviderExample`).
- The strict accuracy contract is described as preserving every valid labelled row. It does exactly when no valid row is
  labelled, or all of them are, none carries a `pii` metadata entry that is no dictionary, and profiling them sends
  nothing to the provider (`PipelineStrict.StrictContractExactly`). One unlabelled valid row makes the contract lapse for
  the whole dataset (`StrictLapses`, `StrictLapsesExample`); such an entry stops the run, and so does a provider that
  fails when it is asked, for rows whose labels are all blank, what their classes are (`StrictKeepsValidRows`,
  `StrictStopsExample`).
- A profile made after resuming may list more text columns, or another label column, than one made before
  (`PipelineResume.ResumedTextFields`, `ResumedTextFieldsExample`, `ResumedLabelField`, `ResumedLabelFieldExample`).
- After a `KeyboardInterrupt` during a wait the sandbox is not poisoned although a request is outstanding. A returned
  value still answers its own request, but the next call to that worker may find a reply out of step; it may exactly
  when the worker runs and still has an old request or reply in its pipes (`SandboxTheorems.NextCallCanDesynchronize`,
  `InterruptExample`). A worker no wait for which was interrupted, such as one started after a close, stays in step
  (`RepliesCorrespond`, `RestartIsClean`).
- `available_row_count` accepts labels that `stratified_rows` then fails on (`Stratified.CappedRequestIsMet`,
  `UnknownLabelExample`).
- The two copies of the frame writer agree only up to the frame limit (`Framing.WritersAgreeUpToTheLimit`,
  `OversizedBodyExample`).
- Refining a chat with several user or assistant turns does not make the new text the whole prompt or response
  (`ItemText.UpdateThenRead`, `SecondTurnStaysExample`).

## Model

| member | source | states |
|---|---|---|
| RunInvariants.StepKeepsInv | buffdata/runs/store.py:94-249 | Every transaction keeps the invariant: slots and running rows match, leases belong to running rows, keys name one run, references are live, and the log replays to the tables |
| RunInvariants.TraceKeepsInv | buffdata/runs/store.py:77-88 | The invariant holds in every state of every interleaving of transactions |
| RunTheorems.EventLogReplay | buffdata/runs/store.py:90-92 | Folding a project's events from empty gives exactly each run's status and cancel flag and the project's active run, in every reachable state |
| RunTheorems.MutualExclusion | buffdata/runs/store.py:192-207 | The slot names r iff r is the project's running run, at most one runs, a row has a lease iff it is running, and no run is started twice |
| RunTheorems.ReferencesStayLive | buffdata/runs/store.py:135-165 | In every reachable state no run refers to a deleted or foreign dataset |
| RunTheorems.TraceEvolves | buffdata/runs/store.py:146-249 | Between any two states of an interleaving rows are never dropped, terminal rows are untouched, cancel flags stay, claimed runs are never queued again, the log only grows and dead leases stay dead |
| RunTheorems.DeadLeaseIsPowerless | buffdata/runs/store.py:209-227 | Presenting a lease that once died changes nothing at any later time |
| RunTheorems.TerminalIsAbsorbing | buffdata/runs/store.py:218-236 | A row in a terminal status is the same row in every later state |
| RunTheorems.ResubmitIsIdempotent | buffdata/runs/store.py:146-165 | However much later, a second submission under the same project, actor and key changes nothing; it answers the first run for the same spec and is refused for another |
| RunTheorems.StaleRecoveryIsSafe | buffdata/runs/store.py:218-259 | Over every history with heartbeats committed in time order: the finish changes something iff the run is still held under the lease read and its stored heartbeat is below the cutoff; then it was held under it all the while, every heartbeat committed since the read is below the cutoff, and the run ends, silent for more than 120 s, without a manifest |
| RunTheorems.RenewedHeartbeatStopsRecovery | buffdata/runs/store.py:209-259 | One renewal of the held run between the read and the finish, no more than 120 s before the cutoff, stops the recovery whatever follows it |
| RunTheorems.ReachesSafely | buffdata/runs/store.py:77-88 | Others' transactions keep the invariant, evolve the tables, and leave a worker's run held or ended without a manifest |
| RunHistory.RowsComeFromSubmissions | buffdata/runs/store.py:146-165 | Every row of every history was inserted, queued, by one submission, with the spec, actor, key, provenance, parent and time it gave, under a key unused then |
| RunHistory.SubmissionInserts | buffdata/runs/store.py:146-165 | A submission changes the tables iff its key and id are unused and its datasets live, and then inserts that one row |
| RunHistory.ClaimsOldestFirst | buffdata/runs/store.py:192-207 | A claim takes a run iff the project has none running and one to take is queued; it is then the oldest such |
| RunHistory.HeldSinceTheClaim | buffdata/runs/store.py:192-216 | A held run was taken by one claim under its own token, with the time of the claim as heartbeat, and has been held ever since |
| RunHistory.HeartbeatIsTheLast | buffdata/runs/store.py:192-216 | In every history, a held run's stored heartbeat is the time of the last claim or heartbeat that took it |
| RunHistory.RecoveryExactly | buffdata/runs/store.py:218-259 | A stale finish of a held run goes through iff that time is more than 120 s before the recovery's |
| RunHistory.FreshClaimStopsRecovery | buffdata/runs/store.py:192-259 | A claim no more than 120 s before the recovery, with no earlier-timed heartbeat after it, makes the stale finish change nothing |
| RunHistory.RunsEndByOneStep | buffdata/runs/store.py:218-249 | Every ended row was ended by one finish or cancel, with the status, error and manifest that step gives |
| RunHistory.FinishEndsExactly | buffdata/runs/store.py:218-236 | A finish changes the tables iff the status is terminal and the lease held, and the heartbeat is below the cutoff if there is one |
| RunHistory.CancelFlagExactly | buffdata/runs/store.py:238-249 | A row carries the cancel flag iff some cancel of it was committed before it ended |
| RunHistory.LiveExactly | buffdata/runs/store.py:116-144 | A dataset is live iff it was added and not deleted since |
| Store.RunStore.EnsureProject | buffdata/runs/store.py:94-98 | The new tables are those of the step; a known project is left alone |
| Store.RunStore.AddDataset | buffdata/runs/store.py:116-120 | The new tables are those of the step, including the duplicate-id failure |
| Store.RunStore.DeleteDataset | buffdata/runs/store.py:135-144 | Refused exactly when a run of the project refers to the dataset; else the tombstone step |
| Store.RunStore.Submit | buffdata/runs/store.py:146-165 | Answers the first run under the key, refuses another spec or a dead dataset, else inserts the queued row: the submission step and its answer |
| Store.RunStore.Claim | buffdata/runs/store.py:192-207 | Takes the oldest queued run of a free project, or the named one, under the fresh lease; the claim step |
| Store.RunStore.Heartbeat | buffdata/runs/store.py:209-216 | Succeeds exactly for the holder and answers whether a cancel was requested |
| Store.RunStore.Finish | buffdata/runs/store.py:218-236 | Succeeds exactly for the holder, with the stale cutoff if any; a requested cancel wins and drops the manifest |
| Store.RunStore.Cancel | buffdata/runs/store.py:238-249 | Ends a queued run, flags a running one, and does nothing to an ended one |
| Store.RunStore.InterruptStale | buffdata/runs/store.py:251-259 | Of a run held at the read, succeeds iff it was stale then and, in the state the finish finds, still held and below the cutoff; on failure nothing is changed by it |
| Runner.Stop | buffdata/runs/runner.py:39-52 | A child that has exited is left alone; else it is asked, waited for 30 s and, only if that runs out, killed and waited for; then it is dead |
| Runner.Supervise | buffdata/runs/runner.py:15-55 | Unless it raises: succeeded iff the child was seen to exit by itself with code 0, cancelled iff a heartbeat of this call answered so, else failed; on success the manifest is exactly the one the child wrote, otherwise there is none; it raises only on an interrupt at a moment reached, a lost lease or an unreadable manifest; the child is dead on every exit by way of the `finally` block, and only heartbeats touch the store |
| Runner.Attempt | buffdata/runs/runner.py:62-74 | Whether or not it raises, the run is still held, lost without a manifest, or settled and safely published as the child and the heartbeats decided; it does not come to publishing only for an interrupt at a moment reached, a lost lease, or a manifest that is unreadable or does not verify |
| Runner.RunLocal | buffdata/runs/runner.py:58-78 | Every exit with at most one interrupt, not before the `try` block, leaves the claimed run terminal and the slot free of it; a manifest means success and, unless empty, verification; a cancel committed first always wins; and a run that is not interrupted, still held at the finish and not cancelled, whose child exits with 0 and wrote a manifest that verifies, ends succeeded with exactly that manifest |
| Runner.OwnFinishSettles | buffdata/runs/runner.py:69-70 | The holder's finish settles the run whatever others did since the claim |
| Runner.StoredManifestIsIntact | buffdata/runs/runner.py:67-70 | A manifest that is not empty and is stored on a settled run names this run and its inputs, and every artifact it lists is on disk with the digest listed |
| Runner.IntactManifestIsPublishable | buffdata/runs/runner.py:67-70 | Any manifest that does so may be published |
| Runner.EmptyManifestIsPublishedUnverified | buffdata/runs/runner.py:67-70 | Exactly the falsy manifests pass the gate without being verified and are stored on a succeeded run |
| Runner.EmptyManifestExample | buffdata/runs/runner.py:67-70 | A history from the empty store at whose end one is |
| RunService.CheckDataset | buffdata/runs/service.py:142-147 | Fails with a key error exactly when the dataset is not live in the project at the lookup, else with a conflict exactly when its file is not intact |
| RunService.Submit | buffdata/runs/service.py:149-165 | With other transactions between the policy, parent, runtime and dataset checks and the insert: either a check fails and nothing is inserted, each error having its own reasons, or the answer is that of the submission step with every check passed |
| RunService.EndPrevious | buffdata/runs/service.py:203-208 | Succeeds exactly for a run that had ended without success at the call, or was running and was held and silent both at the unlocked read and in the state the finish found; what it answers has ended without success |
| RunService.Withdraw | buffdata/runs/service.py:212-214 | A row whose inputs differ is left ended or told to stop, also when a worker has claimed it meanwhile |
| RunService.Resume | buffdata/runs/service.py:203-215 | With others between any two transactions: the answer has the old spec and inputs, the old run has ended without success under the same implementation, and it is the answer of the submission in a state reached from the call; under a key unused there it is a new row, inserted queued, with the old run as parent. A row whose inputs differ is left ended or told to stop; otherwise a failed call has submitted nothing and, for a run that had ended so or was stale, means another implementation or a refused submission |
| Lineage.ChainIsExact | buffdata/runs/service.py:233-240 | Parent links that submission can create are acyclic: the chain holds exactly the ancestors, each once, and ends at a root |
| Lineage.Ancestors | buffdata/runs/service.py:233-240 | The walk terminates with exactly that chain, nearest first, or fails for an unknown run |
| Lineage.Descendants | buffdata/runs/service.py:242-258 | Exactly the runs reachable over child links in the window, each once, nearest first |
| Lineage.GroupChildren | buffdata/runs/service.py:242-247 | Each parent's list is its children in window order |
| Lineage.Expand | buffdata/runs/service.py:250-258 | One level finds exactly the unseen children of the frontier, each once |
| Lineage.DirectionsAgree | buffdata/runs/service.py:217-259 | With at most 1000 runs in the project, a is an ancestor of b iff b is a descendant of a |
| Schemas.LabelsRoundTrip | buffdata/models/schemas.py:113 | Labels read back from their JSON form are the same labels, for every admissible shape |
| Schemas.MessagesRoundTrip | buffdata/models/schemas.py:216-217 | Messages read back from their JSON form are the same messages |
| Schemas.ParsedIsWellFormed | buffdata/models/schemas.py:234-289 | Every row that parses keeps the shape its format was decided by |
| Schemas.SameSerialises | buffdata/models/schemas.py:208-232 | Rows that agree in what stages compare serialise to the same dictionary |
| Schemas.RoundTrip | buffdata/models/schemas.py:208-289 | Parsing a serialised row succeeds and gives a row of the same format, text, labels, metadata, score and other columns |
| Parsing.FromDictExactly | buffdata/models/schemas.py:234-289 | A dictionary parses to a row iff the row reads it: its labels are those of the first of the four label columns that is present, its format goes by the columns present, and each text, score, id and other column comes from its own key with an admissible value |
| Parsing.ToDictDumps | buffdata/models/schemas.py:208-232 | A serialised row holds its id, the texts of its format, its labels, metadata and scores under their own keys if it has them, and every other column of the raw row unchanged |
| ItemText.Conversation.SetPrompt | buffdata/models/schemas.py:174-182 | The loop replaces the first user turn in place, or puts one in front |
| ItemText.Conversation.SetResponse | buffdata/models/schemas.py:183-191 | The loop replaces the last assistant turn in place, or appends one |
| ItemText.UpdateThenRead | buffdata/models/schemas.py:121-206 | For every format, and whichever of the two texts are given: what is read back is the texts given and the other as it was, iff the row is no chat with several turns of a side that was written and no custom row in which an older column covers an empty text |
| TextExact.PromptAndResponseExactly | buffdata/models/schemas.py:121-143 | Prompt and response by format: joined turns of either side, instruction with its input, or the first column of three that has a truth value |
| TextExact.ClassificationTextExactly | buffdata/models/schemas.py:145-161 | The text to classify by format: what is asked, or the first of six columns that is not blank |
| TextExact.UpdateExactly | buffdata/models/schemas.py:163-206 | Which fields replacing the text sets, and to what; all others stay |
| TextExact.PromptSetExactly | buffdata/models/schemas.py:174-182 | The first user turn, and no other, gets the new text |
| TextExact.ResponseSetExactly | buffdata/models/schemas.py:183-191 | The last assistant turn, and no other, gets the new text |
| Dedup.DropsIsGreedyIndependent | buffdata/optimizers/dedup.py:63-84 | The rows dropped are the only choice in which kept rows are pairwise below the threshold and each dropped row has an earlier kept witness |
| Dedup.RerunDropsNothing | buffdata/optimizers/dedup.py:67-84 | Running again on the kept rows drops nothing |
| Dedup.ExactImpliesNear | buffdata/optimizers/dedup.py:19-84 | For thresholds up to 1 and rows with a word in them, whatever exact deduplication drops is dropped as a near-duplicate too |
| Dedup.SameKeySameSignature | buffdata/optimizers/dedup.py:27-61 | Equal exact keys give equal shingle sets, white space at the ends notwithstanding |
| TextExact.ContentExactly | buffdata/optimizers/dedup.py:14-17 | Rows are compared by prompt and response, and by the text to classify when those are blank |
| TextExact.SplitExactly | buffdata/optimizers/dedup.py:57 | Splitting: a word is itself, and white space separates; this determines it |
| TextExact.SignatureExactly | buffdata/optimizers/dedup.py:56-61 | The shingles are the runs of three lower-case words, or the words when there are fewer |
| TextExact.NearExactly | buffdata/optimizers/dedup.py:71-75 | Two rows are near iff they have shingles and at least the threshold of them are common |
| Dedup.DeduplicateExact | buffdata/optimizers/dedup.py:19-35 | Splits the rows, in order, at exactly the repeats of an earlier key |
| Dedup.NearAny | buffdata/optimizers/dedup.py:70-77 | Finds a kept set at or above the threshold iff there is one, empty unions never counting |
| Dedup.DeduplicateMinhash | buffdata/optimizers/dedup.py:37-84 | Splits the rows, in order, at exactly the greedy choice, dropped rows carrying the reason |
| Classifier.CleanIsASet | buffdata/optimizers/classifier.py:152 | The cleaned labels are the distinct nonblank stripped labels |
| Classifier.AssignIsClosed | buffdata/optimizers/classifier.py:199-213 | A row accepted from a reply has labels of the allowed classes, as many as the task type takes, no error, and is otherwise unchanged |
| ClassifierReplies.AssignExactly | buffdata/optimizers/classifier.py:196-213 | A row is labelled iff the last entry with its own id has acceptable labels; then it carries those labels and the record of that entry, and nothing else of it changes |
| ClassifierReplies.RefusalReasons | buffdata/optimizers/classifier.py:151-203 | Why a row is refused: no entry with its id, a label outside the classes, or the wrong number of labels |
| ClassifierReplies.ReplyExactly | buffdata/optimizers/classifier.py:195-214 | A reply goes through iff it has an acceptable last entry for every row with text, and then labels each of them by its own |
| ClassifierReplies.RecordsExactly | buffdata/optimizers/classifier.py:164-182 | What is sent: the id and first 4000 characters of every row with text, in order |
| ClassifierReplies.ChunkHasOwnLabels | buffdata/optimizers/classifier.py:163-221 | In a chunk that goes through, every row with text has the labels of the last entry with its id in the reply that decided |
| ClassifierReplies.BatchHasOwnLabels | buffdata/optimizers/classifier.py:223-236 | So in a batch, each row by the reply to its own chunk of ten |
| ClassifierReplies.ChunkRaisesExactly | buffdata/optimizers/classifier.py:185-218 | A chunk raises iff it has a row with text and the first reply is a provider error, or fails or is refused for some row and the second is one |
| ClassifierReplies.BatchRaisesExactly | buffdata/optimizers/classifier.py:223-236 | A batch raises iff one of its chunks does |
| Classifier.TwiceShape | buffdata/optimizers/classifier.py:184-221 | Row by row: labelled from the closed set if an attempt went through, else carrying the last error |
| Classifier.ChunkIsClosed | buffdata/optimizers/classifier.py:163-221 | For every provider: a row without text is rejected, one with text is labelled from the closed set or rejected unless the last error is the empty text |
| Classifier.SurvivorsAreLabelledExactly | buffdata/optimizers/classifier.py:184-243 | All rows of a chunk that survive have labels of the closed set iff an attempt went through, or the last error has a text, or each row with text had such labels before or was reached by the first reply |
| Classifier.BatchByChunk | buffdata/optimizers/classifier.py:231-236 | A row comes out of the batch as it comes out of the chunk of ten it was sent in |
| Classifier.BatchIsClosed | buffdata/optimizers/classifier.py:223-243 | Over any number of chunks and every provider: a row without text is rejected; one with text is labelled from the closed set if an attempt on its own chunk went through, and otherwise survives iff that chunk's last error has an empty text |
| Classifier.BatchSurvivorsExactly | buffdata/optimizers/classifier.py:184-243 | Over whole batches, rows that arrive labelled included: every row accepted by the partition has labels of the closed set iff each row with text is in a chunk that does not end in an empty error, or had such labels before, or was reached by the first reply to its chunk |
| Classifier.UnlabelledSurvivorsExactly | buffdata/optimizers/classifier.py:184-243 | When no row arrives labelled: every accepted row is labelled from the closed set iff no chunk with text in it ends in an empty error |
| Classifier.SilentProviderExample | buffdata/optimizers/classifier.py:220-243 | A provider whose exceptions have no text leaves a concrete row accepted and unlabelled |
| Classifier.ApplyReply | buffdata/optimizers/classifier.py:195-214 | Labels rows in place up to the first refused one, and says why |
| Classifier.ClassifyChunk | buffdata/optimizers/classifier.py:163-221 | The two attempts in place: earlier partial labels stay, errors are set at the end, and a provider error on either attempt is raised and not retried |
| Classifier.ClassifyBatch | buffdata/optimizers/classifier.py:223-236 | Chunks of ten in order, raising iff a chunk raises; an inapplicable schema changes nothing |
| Classifier.PartitionFailures | buffdata/optimizers/classifier.py:238-243 | Accepted and rejected are the rows without and with an error, in order |
| Sampling.SampleIsEven | buffdata/engine/profiler.py:16-23 | For n > limit >= 2: exactly limit increasing positions from 0 to n-1, each within one half of its ideal place |
| Sampling.TiesGoToEven | buffdata/engine/profiler.py:16-23 | A position half way between two integers is the even one |
| PipelineExact.ValidateKeepsExactly | buffdata/engine/pipeline.py:181-198 | Validation keeps exactly the usable rows, unchanged, and rejects each other row for the list of all that is wrong with it |
| PipelineExact.RedactExactly | buffdata/engine/pipeline.py:200-226 | Whether redaction is off, of identifiers only or of everything, by labels, contract and policy; each row is then redacted as its format says, the stage raising iff it is off and a record cannot be counted |
| PipelineExact.ScrubItemIs | buffdata/optimizers/scrubber.py:154-188 | Every text of the row's format is replaced by its redaction, all else stays, and the record counts each entity over all the texts |
| PipelineExact.FlattenExactly | buffdata/engine/profiler.py:68 | The classes are exactly the label texts that are not blank; there are several to a row iff some row has a list of two |
| PipelineExact.ProfileExactly | buffdata/engine/profiler.py:63-146 | The schema follows from existing labels; else it is none for generative formats or blank samples; else the provider decides, and only its failure raises |
| PipelineExact.DedupExactly | buffdata/engine/pipeline.py:244-280 | The method by contract, configuration and labels; which rows leave under it and with what reason; kept rows stay as they are |
| PipelineExact.FilterKeepsExactly | buffdata/engine/pipeline.py:354-393 | When every row is scored, exactly the rows scored without error, safe and at the minimum stay, and each other one leaves for its own reason; otherwise all stay |
| PipelineExact.LabelExactly | buffdata/engine/pipeline.py:395-444 | Whether rows are labelled, with which schema and what report; then exactly the rows with an error leave, for that error |
| PipelineExact.RunIsSevenStages | buffdata/engine/pipeline.py:146-444 | A run is the seven stages in their order, ending at the first that raises |
| PipelineScores.AuditExactly | buffdata/optimizers/scorer.py:154-238 | A row the rules object to gets the fixed low scores; another is sent in its chunk and graded by the last entry with its id in the reply to that chunk, or carries the error |
| PipelineScores.RefineExactly | buffdata/optimizers/refiner.py:72-151 | Each row is rewritten, as far as the mode allows, by the last entry with its id in the reply to its own chunk of twenty, or carries the error |
| PipelineScores.ImproveExactly | buffdata/engine/pipeline.py:323-343 | Exactly the typed rows scored below the bound without error are refined and audited again, each in its place |
| PipelineScores.ScoreStageExactly | buffdata/engine/pipeline.py:282-352 | All rows, a sample or none are scored, by contract and mode; what is reported; no row leaves |
| PipelineCongruence.ScrubLike | buffdata/optimizers/scrubber.py:154-188 | Redaction takes rows that serialise alike to rows that serialise alike |
| PipelineCongruence.ProfileLike | buffdata/engine/pipeline.py:228-242 | Rows that serialise alike have the same profile core, or the provider raises on both |
| PipelineCongruence.DedupLike | buffdata/engine/pipeline.py:244-280 | Deduplication decides alike on rows that serialise alike |
| PipelineCongruence.AuditLike | buffdata/optimizers/scorer.py:154-238 | So does the audit: the provider is asked the same and rows are graded alike |
| PipelineCongruence.RefineAllLike | buffdata/optimizers/refiner.py:72-151 | So does refinement |
| PipelineCongruence.ScoreLike | buffdata/engine/pipeline.py:282-352 | So does the scoring stage in each of its modes |
| PipelineCongruence.FilterLike | buffdata/engine/pipeline.py:354-393 | So does the quality filter |
| PipelineCongruence.ClassifyLike | buffdata/engine/pipeline.py:395-444 | So does labelling, which raises on both or on neither |
| PipelineCongruence.StepLike | buffdata/engine/pipeline.py:200-444 | Every stage after validation takes alike states to alike states, or raises on both |
| PipelineResume.LoadSaved | buffdata/engine/pipeline.py:93-127 | Loading a saved checkpoint succeeds and gives a state no later stage tells apart from the saved one |
| PipelineResume.LoadExactly | buffdata/engine/pipeline.py:116-179 | A checkpoint is refused iff it belongs to another input or configuration or a row in it does not parse; otherwise the run goes on with just what was saved |
| PipelineResume.ResumedSteps | buffdata/engine/pipeline.py:170-444 | From a state restored after j stages, the first k stages lead to a state like the uninterrupted one |
| PipelineResume.SessionKeepsCheckpoint | buffdata/engine/pipeline.py:198-444 | A process that resumes and dies anywhere leaves exactly a checkpoint of the uninterrupted run |
| PipelineResume.CrashesDoNotMatter | buffdata/engine/pipeline.py:146-444 | For every input, configuration and sequence of crashes: the last process writes the same rows in the same order, with the same reports and profile core, or raises, as a run that never stopped |
| PipelineResume.ResumedTextFields | buffdata/engine/profiler.py:155-158 | The profile's text columns survive a resumption iff each text column the format writes was in some raw row |
| PipelineResume.ResumedTextFieldsExample | buffdata/engine/profiler.py:155-158 | A concrete row for which they do not |
| PipelineResume.ResumedLabelField | buffdata/engine/profiler.py:68-86 | The label column that a profile stores survives a resumption iff no label has a text or some raw row had the column that labels are written to |
| PipelineResume.ResumedLabelFieldExample | buffdata/engine/profiler.py:68-86 | A concrete row, labelled by its category column, for which it does not |
| PipelineConservation.StepKeeps | buffdata/engine/pipeline.py:181-444 | Each stage leaves the accepted rows a subsequence, loses and doubles none, keeps each row's id, format and (for typed rows) columns, and appends rejections that name it |
| PipelineConservation.RunConservesRows | buffdata/engine/pipeline.py:146-444 | After any stages accepted is an order-preserving subsequence of the input, accepted and rejected together a permutation of it, and every rejected row names a stage that ran |
| PipelineConservation.ResumedRunConservesRows | buffdata/engine/pipeline.py:129-444 | Over a file's rows and any sequence of crashes, the last process answers as the uninterrupted run over the items read from the file; that run ends with every row exactly once, accepted rows in the file's order, rejected rows naming their stage, and each dictionary written carries its file row's id and unknown columns; or both raise |
| PipelineConservation.RejectionCounts | buffdata/engine/pipeline.py:505-512 | Every row is counted once, under its stage and reason or as unknown; raises iff some record is no dictionary, which no row rejected by a run has |
| PipelineStrict.StrictKeepsValidRows | buffdata/engine/pipeline.py:163-242 | Strict and all valid rows labelled: the run finishes iff every valid row's redaction record can be counted and the provider answers the profiling call, if one is made; then it accepts the valid rows unchanged in every field and rejects exactly the invalid ones |
| PipelineStrict.StrictLapses | buffdata/models/schemas.py:375-378 | With a valid row unlabelled there are a strict configuration and a provider whose audits fail under which every labelled valid row is lost |
| PipelineStrict.StrictContractExactly | buffdata/models/schemas.py:375-378 | Every labelled valid row is kept with its labels and text, under all strict configurations and providers, iff no valid row is labelled, or all are, their redaction records can be counted, and for no sample size a text of theirs is sent to the provider |
| PipelineStrict.StrictLapsesExample | buffdata/engine/pipeline.py:163-168 | Two concrete rows, one labelled, for which nothing is accepted |
| PipelineStrict.StrictStopsExample | buffdata/engine/profiler.py:103-131 | A concrete row with an empty label, for which a strict run asks the provider and ends if it does not answer |
| PipelineObject.OptimizationPipeline.ValidateRows | buffdata/engine/pipeline.py:181-198 | The loop splits the rows as the stage says, rejections in order |
| PipelineObject.OptimizationPipeline.ScrubRows | buffdata/engine/pipeline.py:200-226 | The stage, raising exactly when some row's redaction record is no dictionary |
| PipelineObject.OptimizationPipeline.ProfileRows | buffdata/engine/pipeline.py:228-242 | The stage, raising exactly when the provider is asked for a schema and fails |
| PipelineObject.OptimizationPipeline.FindDuplicates | buffdata/engine/pipeline.py:247-271 | The method chosen drops exactly the rows the stage says |
| PipelineObject.OptimizationPipeline.Deduplicate | buffdata/engine/pipeline.py:244-280 | Kept rows stay in order, duplicates end the rejected list with their reason |
| PipelineObject.OptimizationPipeline.FilterRows | buffdata/engine/pipeline.py:354-393 | The loop keeps and rejects as the stage says |
| PipelineObject.OptimizationPipeline.Label | buffdata/engine/pipeline.py:395-444 | The branches of the labelling stage, raising exactly on an invalid schema or a provider error |
| PipelineObject.OptimizationPipeline.RunStage | buffdata/engine/pipeline.py:181-444 | One stage and its checkpoint; a stage that raises or was completed leaves the file alone |
| PipelineObject.OptimizationPipeline.Run | buffdata/engine/pipeline.py:146-444 | The checkpoint file and the state after a process that reaches any point are those of the session and step functions |
| PipelineObject.OptimizationPipeline.RunFile | buffdata/engine/pipeline.py:129-144 | A finished run answers as the session says and leaves no checkpoint |
| Framing.DecodeAfterWire | buffdata/security/sandbox_protocol.py:16-35 | Whatever follows them, in-limit frames decode to exactly their bodies |
| Framing.RoundTrip | buffdata/security/sandbox_protocol.py:16-47 | Reading back any sequence of in-limit frames gives exactly those bodies, then EOF |
| Framing.TruncatedStream | buffdata/security/sandbox_protocol.py:25-35 | A stream cut anywhere yields exactly the frames that arrived whole, then EOF |
| Framing.ReadExact | buffdata/security/sandbox_protocol.py:38-47 | However reads are split: the next bytes, or nothing once the stream is dry |
| Framing.ReadFrame | buffdata/security/sandbox_protocol.py:25-35 | One frame, EOF or an over-long length, as the byte stream alone decides |
| Framing.ReadAll | buffdata/security/sandbox_worker.py:64-75 | A consumer sees exactly the frames of the stream and why they ended |
| Framing.WritersAgreeUpToTheLimit | buffdata/security/anonymizer_worker.py:25-29 | The two writers agree, and the reader accepts what the second wrote, exactly up to the frame limit |
| Framing.OversizedBodyExample | buffdata/security/anonymizer_worker.py:25-29 | One byte over the limit: the first refuses, the second writes, no reader accepts |
| AnonymizerFraming.ReadExact | buffdata/security/anonymizer_worker.py:45-53 | The second copy reads the same bytes from every stream |
| AnonymizerFraming.ReadFrame | buffdata/security/anonymizer_worker.py:32-42 | The second copy decodes every stream as the first does |
| SandboxTheorems.StepKeepsInv | buffdata/security/sandbox.py:54-152 | Every step of callers, workers and abandoned readers keeps requests, replies and ids matched, and at most the pending request in flight to a worker no wait for which was interrupted |
| SandboxTheorems.RepliesCorrespond | buffdata/security/sandbox.py:54-101 | Over every run, interrupted waits included, what a call returned is the worker's reply to that very request; with a worker no wait for which was interrupted, replies are never mixed up and one request at most is outstanding |
| SandboxTheorems.InterruptedExactly | buffdata/security/sandbox.py:83-101 | A worker counts as interrupted iff some wait for its own reply was |
| SandboxTheorems.RestartIsClean | buffdata/security/sandbox.py:44-62 | A worker started after a close is not interrupted |
| SandboxTheorems.NextCallCanDesynchronize | buffdata/security/sandbox.py:54-76 | From an idle state some steps make the next call find a reply to another request iff the current worker is running with an old request or reply in its pipes |
| SandboxTheorems.InterruptExample | buffdata/security/sandbox.py:54-101 | A run in which an interrupted wait leaves two requests in flight and the second call is answered out of step |
| SandboxTheorems.PoisonIsForever | buffdata/security/sandbox.py:56-57 | Once poisoned, every later call is refused and nothing is sent, received or started |
| SandboxTheorems.IdsIncrease | buffdata/security/sandbox.py:44-67 | Request ids strictly increase, across restarts too |
| SandboxTheorems.ErrorRepliesAreSurvivable | buffdata/security/sandbox.py:75-81 | After a reply the same worker can be asked again while it runs, unless the reply has another id, which only an earlier interrupted wait for that worker can cause; without one its pipes are empty |
| SandboxTheorems.FailuresHaveReasons | buffdata/security/sandbox.py:54-81 | A call is refused only when poisoned, and poisons only when no worker starts, the worker has exited, the pipes fail or run out, or a reply has another id |
| SandboxTheorems.CallsExcludeEachOther | buffdata/security/sandbox.py:54-76 | While a call waits nothing is sent, started, refused or closed; requests go only to the current worker, running |
| SandboxTheorems.CrashIsForGood | buffdata/security/sandbox.py:63-64 | A worker that has exited answers nothing and is sent nothing more |
| SandboxObject.PluginSandbox.Call | buffdata/security/sandbox.py:54-101 | What the call comes to is fixed by whether a worker runs or starts, the pipes work, the wait is interrupted or runs out, and the first reply then in the worker's pipe; it is some run of the protocol's steps; any failure to talk poisons for good; an interrupt leaves the sandbox usable and marks its worker, and only a worker marked before can reply out of step |
| SandboxObject.CallsComeTo | buffdata/security/sandbox.py:54-101 | To a worker in step: its answer is the call's result or the plugin's error, silence and lateness are failures, and an interrupt takes precedence |
| SandboxObject.PluginSandbox.Close | buffdata/security/sandbox.py:131-152 | The closing step: detaches the process without poisoning |
| Limiter.TraceKeepsInv | buffdata/engine/limiter.py:27-47 | In every run the kept stamps are the recent end of all grants, sorted, and slots add up |
| Limiter.PruneDropsPrefix | buffdata/engine/limiter.py:34-35 | The comprehension drops exactly the expired prefix |
| Limiter.WindowBound | buffdata/engine/limiter.py:27-47 | In every run, every half-open 60 s interval holds at most max_rpm grants and at most `concurrency` slots are out |
| Limiter.GrantsExactly | buffdata/engine/limiter.py:32-39 | In every run an attempt is granted iff fewer than max_rpm grants were made in the 60 s before it; otherwise it sleeps until 50 ms after the oldest of them is a minute old, or fails when there is none |
| Limiter.SlotIsFreeExactly | buffdata/engine/limiter.py:24-29 | A waiting task can go on iff fewer than `concurrency` slots are out |
| Limiter.SleepIsPositive | buffdata/engine/limiter.py:39-43 | A computed sleep is always positive |
| Limiter.WakersFindRoom | buffdata/engine/limiter.py:39-43 | A task waking from its computed sleep finds the stamp it waited on expired |
| Limiter.AsyncRateLimiter.TryGrant | buffdata/engine/limiter.py:32-39 | The locked section grants, sleeps until the oldest stamp expires, or crashes on an empty list |
| Rouge.LcsIsUpperBound | benchmarks/benchmark_generative_utility.py:88-98 | No common subsequence is longer than the table's value |
| Rouge.LcsIsAttained | benchmarks/benchmark_generative_utility.py:88-98 | Some common subsequence is that long |
| Rouge.LcsWithinOverlap | benchmarks/benchmark_generative_utility.py:70-100 | The subsequence is never longer than the bag overlap |
| Rouge.RougeLIsAScore | benchmarks/benchmark_generative_utility.py:82-100 | Symmetric, within [0, 1], 1 exactly on equal lists, never above the token score |
| Rouge.RougeLIsRatio | benchmarks/benchmark_generative_utility.py:82-100 | Twice the longest common subsequence over the two lengths; 1 for two empty lists and so 0 for one |
| Rouge.TokenF1IsAScore | benchmarks/benchmark_generative_utility.py:70-79 | Symmetric, within [0, 1], 1 exactly on equal bags |
| Rouge.TokenF1IsRatio | benchmarks/benchmark_generative_utility.py:70-79 | The same ratio of the bag overlap |
| Rouge.LcsTable | benchmarks/benchmark_generative_utility.py:88-98 | The two rolling rows compute the longest common subsequence |
| Rouge.RougeLF1 | benchmarks/benchmark_generative_utility.py:82-100 | The method returns the score on all inputs, empty lists included |
| Sharding.PartitionsAreBalanced | buffdata/integrations/sharding.py:66-85 | For every label the counts of two partitions differ by at most one, an earlier one having no fewer |
| Sharding.DealtExactly | buffdata/integrations/sharding.py:66-85 | A row goes to the partition numbered by the rows before it that share its counter, modulo the number of partitions |
| Sharding.LabelsAreBalanced | buffdata/integrations/sharding.py:66-85 | Rows of one scalar label, those without any, or all when not stratifying, share a counter and are dealt evenly |
| Sharding.FilledPartitionsAreAPrefix | buffdata/integrations/sharding.py:82-94 | The files created are a contiguous prefix of the indices |
| Sharding.PartitionKeepsOrder | buffdata/integrations/sharding.py:72-85 | Each partition keeps the input's order |
| Sharding.PartitionDataset | buffdata/integrations/sharding.py:38-94 | Fails exactly on no partitions or no rows; else the files are the nonempty partitions in order |
| Sharding.MergePartitionResults | buffdata/integrations/sharding.py:97-167 | Rows in order and normal form, rejected rows likewise, usage and rejection counts summed exactly |
| Sharding.MergeOneMore | buffdata/integrations/sharding.py:110-160 | What one more partition adds: its accepted and rejected rows behind those before it, and its own counts |
| Sharding.PartitionThenMerge | buffdata/integrations/sharding.py:38-167 | Partition then merge gives a permutation of the input's rows, each serialised as before |
| Stratified.StratifiedRows | benchmarks/benchmark_buffdata.py:227-258 | Succeeds exactly when every label is known and every class has its share; draws without replacement, exactly the rows asked for: the first of each class's shuffled bucket, or of all rows shuffled |
| Stratified.BalancedDraw | benchmarks/benchmark_buffdata.py:248-258 | Class counts of a balanced draw differ by at most one |
| Stratified.CappedRequestIsMet | benchmarks/benchmark_buffdata.py:261-275 | A request capped by the available count can be met exactly when every label of the split is a known class |
| Stratified.UnknownLabelExample | benchmarks/benchmark_buffdata.py:261-275 | A split of two classes with a third label: the cap is answered and cannot be met |
| Stratified.MinCountIsLeast | benchmarks/benchmark_buffdata.py:271-275 | The cap's minimum is the count of the rarest label |

## Left out

- SQL, files, permissions, process signals and thread mechanics: each committed transaction, locked section or file write is one atomic step.
- Death of the supervising process itself, and exceptions other than `Exception` and `KeyboardInterrupt`, in `run_local`.
- Supervise: an interrupt inside the `finally` block, which may leave the child alive, is not modelled.
- RunLocal: an interrupt between the commit of `claim` and the `try` block, or a second one inside the handler's own `finish`, may leave the run running with its slot filled and is not modelled.
- The order and the limit of 10000 rows in which `run_events` reads the log: replay is over the log in commit order.
- `record_event` and the webhook, key and project-update events, except as events that change no run.
- `register`, `prepare`, the file walks of `verify_manifest` and `check_input`, and `compare`: whether a file is intact and admissible is one fact about it; `compare` is counter arithmetic.
- Reads of `lineage` see one state of the store; runs submitted while it walks are not modelled.
- Pydantic's coercions beyond the declared types, and Unicode white space and case: strings strip and lower ASCII.
- Aliasing of row objects: rows are values with an identity; a list that holds one object twice is not modelled.
- Ids generated for rows that carry none, as random values: in the resume theorem the rows read by the session that saved the first checkpoint are the ones that count.
- CUSTOM rows in the resume theorem: a round trip adds a column that redaction then visits.
- The profile's reasoning text, and its text and label columns apart from ResumedTextFields and ResumedLabelField.
- Semantic deduplication by embeddings: which rows it drops is an arbitrary function of the texts.
- Which texts the fast rule checks of the scorer object to: an arbitrary function of the two texts.
- Average and minimum of the sampled scores, usage, provider and model names, reports in HTML and observability.
- A provider error while auditing or refining is a stop before that stage's checkpoint; within one run the provider answers, or fails, the same request alike.
- The handshake frame of a sandbox worker and what its handlers compute; bytes other than frames on a worker's output, as from a plugin that writes to standard output; an interrupt while a request is being written, two reader threads tearing one frame, and one that looks its process up only after a close and a restart.
- Task cancellation in the limiter and the retries around it.
- The token pattern of ROUGE-L and `exact_match`: lists of tokens are given.
- Streaming, container formats and file names in sharding; the merged report file is its four parts.
- Text assembly in `stratified_rows`, labels that are no integers, and negative counts.
- Accuracy-gate training, the generator loop, embeddings, authentication, network guards and plumbing.
