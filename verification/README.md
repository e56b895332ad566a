# Agent Team runtime: verified models

Dafny models of the algorithmic core of the Agent Team runtime, with proofs of what it promises. Run
`dafny verify dfyconfig.toml` to check the whole project.

## What is modelled

**Knowledge migration** (`RowDigest`, `Knowledge`, `Recovery`, `Stages`, `Recoverable`, `Selection`,
`CompletedMigration`, `Preparation`, `FreshPreparation`, `Restarts`; and, telling what the loader, the
verifiers, the evidence check and the selection accept from the record and the files alone, `Loading`,
`Verification`, `Evidence` and `Trust`). The disk maps paths to fingerprints, next to
the pending journal, the archived manifests and the directories. A journal replacement, a rename, a
manifest write and an unlink are one atomic durable action each; a crash loses memory and keeps the
disk. The next durable action of a resume is a function of the disk (`Recovery.Next`), so `Run(s, n)`
ranges over all disks that crashes and restarts can leave, and the imperative `Operation` is proved to
move exactly along it. Renames keep the fingerprint, fingerprints of different paths differ (they
contain the inode), the row hash is injective (a digest is represented by the bytes that are hashed),
the row encoding is injective, and the lease excludes other writers. What SQLite does (read, back up,
stage) is a parameter; `StagesCurrentSchema` says what staging relies on it for, `Faithful` when it does
all of its work, and `Physical` what the file system provides. `Operation.faults` is how many durable
actions the process lives for, and `Restarts` chains any number of processes over one disk.

**Environment expansion** (`Expansion`, `Malformed`). Scanners, separator search and the bounded recursion, as
functions and as the loops that compute them, against an evaluator on template trees, and for any other
text against the balance of its braces. The environment and home expansion are parameters.

**Scheduling and review** (`Scheduling`, `PlanReview`). Dependency waves over plans as graphs, with
worker outcomes, the deadline and the cancel event as parameters; sanitizing, the fallback plan and the
injected reviewer. Cycles are walks that repeat a task.

**Worker runtime** (`Registry`, `Transitions`, `Limiter`, `LifecycleBoundary`). Every section that holds a lock is one
event; runs are arbitrary interleavings. `TaskRegistry.Yield` stands for everything other coroutines may
do while a multi-section operation awaits, short of registering workers or tasks; with `alone` nobody
else is about. `Transitions` says of each state, field and record when a section enters, changes or drops
it. The limiter's events
are the grant of a permit, the registration of a lease, a release, and the return of a permit whose
waiter was cancelled after its grant; the lock inside it is held around blocks without an await and is
never waited for. What others do to the limiter and to the timeout enforcer is arbitrary event
sequences, some while a worker waits for its slot and some while it runs, of which none releases this
worker's lease. Uuids and lease objects are fresh, time is a monotonic clock, and how an await ends is a
parameter.

**Completion gate** (`CompletionGate`). Merging worker results, the report, the validator and the
repair gate. Results keyed by id are dictionaries; redaction is the identity.

**Pi reconcile** (`PiReconciler`). One transaction over settings, state and release directories, where
git, copying and the Pi executable may fail at each step and Pi may write any settings and leave any
package behind. A package tree is represented by its digest.

**Versions** (`SemVer`, `SemVerText`). Order and text form of versions.

## What does not hold of the code

Each of these has a lemma or method with a concrete input, or an exact condition, in the table.

- A start that died before its journal was durable has every later start refused, exactly when there was
  no canonical database and it lived for two durable actions (`Restarts.AbandonedExample`,
  `Restarts.AttemptLeaves`, `Restarts.AbandonedForGood`).
- The loader and the verifiers accept a journal that says PUBLISHED while its candidate is still staged, a
  disk no crash leaves; resuming closes the migration without publishing. A disk they accept is migrated
  exactly when record and candidate are in step (`Trust.AheadExample`, `Trust.TrustedMigratesIff`).
- `_sanitize_plan` renames a repeated id once without looking again, so a plan with distinct ids can
  come out with two equal ones: exactly when an id that is taken would be renamed to an earlier one
  (`PlanReview.RenameCollisionExample`, `PlanReview.SanitizedDistinctIff`).
- Cutting a plan to the worker limit can free an id that a kept task names; the reviewer takes it and
  the plan becomes cyclic (`PlanReview.CutPlanExample`, `PlanReview.ReviewedAcyclicIff`).
- `prune_terminal` does not give back the slot of a running task it drops
  (`Registry.PruneLeakExample`, `Registry.PruneAccountedIff`); with one task per worker there is none
  (`Registry.DisciplinedRun`).
- Registering a task takes a worker out of cancellation (`Registry.CancellationLeftIff`).
- The lifecycle boundary loses the start time somebody else took under the same task id
  (`LifecycleBoundary.EnforceWorkerLifecycle`).
- A repaired report that is valid and complete is still demoted to partial; `docs/project-brief.md`
  (lines 168-170) promises the demotion only when validation still fails. The model follows the code
  (`CompletionGate.Gate`, `CompletionGate.RepairedDemotedExample`).
- The validator lets a required requirement be not applicable in a partial report, where the same
  document (lines 162-166) asks for satisfaction with evidence; it gets that exactly when none of them is
  (`CompletionGate.NotApplicableExample`, `CompletionGate.RequiredProvenIff`).
- Worker order decides which of two equal results is kept, and with it whether a report is complete
  (`CompletionGate.EvidenceOrderExample`); it does not exactly when the results that compete agree on
  having evidence (`CompletionGate.OrderFreeIff`, `CompletionGate.WorkerOrderFreeIff`,
  `CompletionGate.CompletesInEveryOrderIff`).
- A failed reconcile deletes the release it was asked for if that release had drifted, leaves an intact
  one as Pi altered it, and leaves an ownership marker it created behind when the release could not be
  put in place (`PiReconciler.Reconciler.Reconcile`, `PiReconciler.LostReleaseExample`).
- The package is digested only after Pi has run, so a reconcile can succeed with a package git does not
  have (`PiReconciler.AlteredPackageExample`).

## Model

| member | source | states |
|---|---|---|
| RowDigest.BigEndianRoundTrip | src/agent_team/memory/preparation.py:358 | the eight-byte big-endian length prefix can be read back, for every length it can hold |
| RowDigest.StreamInjective | src/agent_team/memory/preparation.py:355-359 | length prefixes make the hashed byte stream unambiguous: equal streams are equal lists of encoded rows |
| RowDigest.EqualDigestsEqualRows | src/agent_team/memory/preparation.py:332-360 | two tables with one digest hold the same rows, column for column, up to the default of the added column |
| RowDigest.UpgradeKeepsHistory | src/agent_team/memory/preparation.py:711 | adding the fourteenth column with its literal default keeps record count and digest |
| Knowledge.AcceptedMovesRecorded | src/agent_team/memory/preparation.py:517-529 | a journal the loader accepts names only files its own sources record, so no verifier can miss a key |
| Verification.AcceptedMovesRetire | src/agent_team/memory/preparation.py:498-529 | the moves of an accepted journal retire each recorded file but the retained winner's, each once, from its live path to its archive path, and none is done before it was intended |
| Loading.AcceptedIff | src/agent_team/memory/preparation.py:477-545 | told without the list of moves it computes: the loader accepts exactly the records whose paths are the archive's, that have a snapshot and a main file for each database, whose moves retire each displaced file once and in order, and whose published history is the winner's (count, digest, upgraded exactly from the old schema, retained only unchanged) or empty for a fresh start |
| Loading.PublishesTheWinner | src/agent_team/memory/preparation.py:538-591 | so on a disk the verifiers accept, what is published reads as the winner's records: the candidate and the snapshot of the selected database hold the same rows, up to the added column |
| Loading.PublishesNothing | src/agent_team/memory/preparation.py:538-591 | and where nothing was selected, as a database without records |
| Knowledge.PlannedMovesDistinct | src/agent_team/memory/preparation.py:687-701 | no two planned moves share a source or a destination |
| Knowledge.PlannedMovesExact | src/agent_team/memory/preparation.py:699-701 | the planned moves are exactly the recorded files that are not the retained winner's, each from its live path to its archive path |
| Verification.VerifiersMean | src/agent_team/memory/preparation.py:552-591 | told from the record alone: with an accepted journal the verifiers find nothing exactly when each displaced original has its recorded fingerprint at its live path (not done) or in the archive (intended) with the other path free or holding the published candidate, nothing else is active, a retained bundle is the recorded one, the candidate is staged or installed, and snapshots and publication read as their recorded histories |
| Verification.ProblemsMean | src/agent_team/memory/preparation.py:788-819 | and which problem is reported: the one of the first check that fails |
| Recovery.EveryActionProgresses | src/agent_team/memory/preparation.py:594-652 | every durable action of a resume, on any disk whatever, strictly lowers a lexicographic measure over pending, phase, undone moves and local progress |
| Recovery.ResumeStops | src/agent_team/memory/preparation.py:594-652 | so a resume that is left alone stops, whatever journal and disk it starts from |
| Recovery.RunSplit | src/agent_team/memory/preparation.py:594-652 | running m actions, losing memory and running n more is running m + n actions: the next action depends on the disk alone |
| Recovery.ActionKeepsFiles | src/agent_team/memory/preparation.py:618-638 | no durable action creates, overwrites or drops a file; only its path can change |
| Recovery.RunKeepsFiles | src/agent_team/memory/preparation.py:594-652 | hence no crash and no number of restarts loses a file, even under a foreign journal |
| Stages.DiskAtStage | src/agent_team/memory/preparation.py:604-646 | at every stage of a prepared migration each file is exactly where the stage says: archived, still live, staged or installed |
| Stages.CanonicalAt | src/agent_team/memory/preparation.py:623-638 | once every move is retired the canonical bundle is the retained one, empty, or the published candidate, and the legacy bundle is empty |
| Stages.NextIsAfter | src/agent_team/memory/preparation.py:594-652 | one durable action takes the disk of a stage to the disk of the next, for all four shapes of migration |
| Recoverable.RunIsAt | src/agent_team/memory/preparation.py:594-652 | the disk after k durable actions is the disk of the k-th stage, so the stages are all the crash states |
| Recoverable.JournalAtAccepted | src/agent_team/memory/preparation.py:477-545 | the journal as written at every stage is accepted by the loader: move order, done implies intent, and the retained, upgraded and selected rules |
| Recoverable.LayoutAcceptedAt | src/agent_team/memory/preparation.py:788-819 | the layout verifier accepts the disk of every stage |
| Recoverable.AcceptsAt | src/agent_team/memory/preparation.py:552-591 | journal loader, layout verifier and content verifier agree at every stage |
| Recoverable.Recoverability | src/agent_team/memory/preparation.py:552-652 | from a durable PREPARED journal, in every state a crash can leave, a restart is accepted and no action is refused; it is finished exactly when all actions were taken |
| Recoverable.Finality | src/agent_team/memory/preparation.py:639-652 | a run that took every action is in the final disk: originals archived, canonical published or retained, manifest COMPLETED, pending gone |
| Recoverable.Convergence | src/agent_team/memory/preparation.py:594-652 | from every crash state, resuming to the end gives that one final disk |
| Recoverable.ConservationAt | src/agent_team/memory/preparation.py:604-622 | at every stage each displaced original is, with its fingerprint, at exactly one of its live path and its archive path |
| Recoverable.Conservation | src/agent_team/memory/preparation.py:604-622 | and so in every crash state |
| Recoverable.RetainedUntouched | src/agent_team/memory/preparation.py:627-630 | a retained canonical bundle is the same in every crash state |
| Trust.TrustedRuns | src/agent_team/memory/preparation.py:594-652 | from any disk the verifiers accept, left by a crash or not, whose journal and candidate are in step, no action is refused and every disk on the way is accepted again, until the migrated one |
| Trust.TrustedMigratesIff | src/agent_team/memory/preparation.py:594-652 | such a disk is migrated by resuming it exactly when it is in step: a staged candidate is still to be published, over an original not archived already, and no canonical original waits behind an installed one |
| Trust.AheadExample | src/agent_team/memory/preparation.py:623-643 | an accepted journal that says PUBLISHED while its candidate is staged, which no run migrates |
| Trust.RefusedIff | src/agent_team/memory/preparation.py:604-638 | a resume is refused in the middle exactly when an announced move finds another file than the recorded one or its destination taken, or an announced publication finds another canonical bundle than it may establish or replace |
| Selection.AmbiguousIff | src/agent_team/memory/preparation.py:467-469 | selection refuses two populated histories exactly when their digests differ |
| Selection.SelectionKeepsEveryRecord | src/agent_team/memory/preparation.py:450-470 | selection drops no data: every database with records holds, row for row, what the selected one holds |
| Selection.AbandonedArchiveBlocks | src/agent_team/memory/preparation.py:424-455 | an archive with an entry and no manifest makes selection fail as unverified evidence exactly when there is no canonical database |
| Evidence.EvidenceBlocksIff | src/agent_team/memory/preparation.py:424-455 | told from the files alone: a start is refused for its evidence exactly when no canonical file is there and some archive holds something, as unverified exactly when one of them has no complete manifest whose snapshots and originals are where it records them |
| Evidence.SelectionMeans | src/agent_team/memory/preparation.py:450-470 | what is chosen: the histories are those the databases read as, legacy wins alone or over an empty canonical one, canonical otherwise |
| Evidence.SelectionRefusedIff | src/agent_team/memory/preparation.py:456-469 | and when nothing is: a database that does not read, or two populated histories with different digests |
| Evidence.NothingToDoIff | src/agent_team/memory/preparation.py:664-667 | the fast path is taken exactly when a canonical database on the current schema is alone, and reports it |
| CompletedMigration.ManifestProves | src/agent_team/memory/preparation.py:433-445 | the archived manifest of a completed migration passes the evidence check of every later start |
| CompletedMigration.SecondPreparationIdle | src/agent_team/memory/preparation.py:664-667 | after a completed migration the next preparation takes the fast path and reports the same count and digest |
| Preparation.Operation.WriteJournal | src/agent_team/memory/preparation.py:147-169 | replacing the pending journal is one durable action; the durable phase changes only with it |
| Preparation.Operation.RetireMove | src/agent_team/memory/preparation.py:604-622 | intent, rename and result of one move, each the next action of the run; it dies only with the process |
| Preparation.Operation.RetireMoves | src/agent_team/memory/preparation.py:604-622 | the retirement loop ends with every move done, dies, or stops where the run itself is refused |
| Preparation.Operation.PublishCandidate | src/agent_team/memory/preparation.py:623-643 | announcing and establishing the canonical database, in both branches, as the run prescribes |
| Preparation.Operation.Close | src/agent_team/memory/preparation.py:644-651 | COMPLETED, the archived manifest and the end of the pending journal, as the run prescribes |
| Preparation.CrashStateRuns | src/agent_team/memory/preparation.py:594-652 | crash states are closed under running, are never refused, and stop only in a final disk |
| Preparation.Operation.Resume | src/agent_team/memory/preparation.py:594-652 | the imperative resume moves exactly along the run by as many actions as the process lives for; on a disk that is not as the record says it fails with the verifier's problem and leaves the disk as it was; from a crash state it cannot fail |
| FreshPreparation.PlanMoves | src/agent_team/memory/preparation.py:687-701 | the collecting loop builds exactly the planned moves in the order the loader expects |
| FreshPreparation.StageSnapshots | src/agent_team/memory/preparation.py:687-698 | every existing database gets a snapshot whose history equals its own; only new files appear in the new archive |
| FreshPreparation.StageCandidate | src/agent_team/memory/preparation.py:702-724 | the staged candidate is on the current schema and has the winner's count and digest, or none for a fresh start |
| FreshPreparation.FaithfulCandidate | src/agent_team/memory/preparation.py:702-724 | with a SQLite that does its work the staged candidate passes the comparison with the winner, added column included |
| FreshPreparation.FaithfulExample | src/agent_team/memory/preparation.py:702-724 | there is such a SQLite, with a table to upgrade, so the promises made under it are not empty |
| FreshPreparation.NewJournalAccepted | src/agent_team/memory/preparation.py:729 | the journal a preparation builds is accepted by the loader in every shape |
| FreshPreparation.NewJournalDescribes | src/agent_team/memory/preparation.py:729 | told from the files alone: the journal lists every active file with its fingerprint, the histories the databases read as, the winner, whether it is retained or upgraded, a history that holds the winner's records, and the status that goes with the databases found |
| FreshPreparation.NewJournalPrepared | src/agent_team/memory/preparation.py:725-730 | when it becomes durable, the disk is a well prepared one |
| FreshPreparation.DoneIsIdle | src/agent_team/memory/preparation.py:655-667 | a resume that ends, from any crash state, leaves a disk on which another preparation does nothing and reports the same count and digest |
| FreshPreparation.RunSound | src/agent_team/memory/preparation.py:594-652 | every disk of a run is one a file system can have: distinct inodes, and no file, entry or manifest outside an archive directory |
| FreshPreparation.Migrate | src/agent_team/memory/preparation.py:668-732 | until its journal is durable only the new archive appears, empty after one durable action and not empty after two; afterwards it ends in the final disk or dies in a crash state |
| FreshPreparation.Restart | src/agent_team/memory/preparation.py:658-662 | a journal that does not load, or a disk that is not as it says, is refused and left as it was; a disk that is as it says, and in step, is migrated or left to be restarted again; a crash state is never refused; the result is the one the journal records; when it dies all its durable actions but one were actions of the run |
| FreshPreparation.Prepare | src/agent_team/memory/preparation.py:655-732 | no file is ever lost; the fast path and a refused selection do nothing; before the journal is durable only the new archive appears, left non-empty exactly when the process lived for two durable actions; afterwards it can only die in a crash state or finish in the final disk, on which it is idle, reporting what the journal records, which is what the databases hold; a restart on a disk that is not as its journal says is refused and changes nothing, one on a crash state is never refused; it can be called again; and with a SQLite that does its work, an archive id that is free and a life of 39 durable actions it is done, on a crash state with a life of 32 |
| Restarts.StartRepeatedly | src/agent_team/memory/preparation.py:655-662 | any number of starts in a row, each with its own archive id and lifetime, each on the disk the last one left and without its memory |
| Restarts.StartOnce | src/agent_team/memory/preparation.py:655-732 | one start; with a SQLite that does its work, a free archive id and a long enough life it is done unless the selection is refused |
| Restarts.StartsKeepFiles | src/agent_team/memory/preparation.py:594-732 | no number of starts, wherever they die, loses a file |
| Restarts.DoneForGood | src/agent_team/memory/preparation.py:655-732 | once a start is done every later one is done, changes nothing and reports the same count and digest |
| Restarts.NeverRefused | src/agent_team/memory/preparation.py:594-732 | from the first start that made a journal durable, or met one, no later start is refused, however often the process dies |
| Restarts.FinishesInTheEnd | src/agent_team/memory/preparation.py:594-732 | from there on, starts that together live for 31 durable actions more than there are starts finish the migration |
| Restarts.OneLongLifeSuffices | src/agent_team/memory/preparation.py:594-732 | in particular one start that lives for 32 durable actions does, however many died before it |
| Restarts.AttemptLeaves | src/agent_team/memory/preparation.py:424-470 | after an attempt without a journal the next selection is refused exactly when there is no canonical database and the attempt lived for two durable actions, and otherwise is the same choice again |
| Restarts.AbandonedForGood | src/agent_team/memory/preparation.py:424-470 | and when it is refused, so is every later start; otherwise the next one finds the same databases with the same histories and selects the same |
| Restarts.AbandonedExample | src/agent_team/memory/preparation.py:668-698 | a legacy database alone and a process that dies at its third durable action: every later start is refused although the database is untouched |
| Expansion.CloseBraceIsFirstBalanced | src/agent_team/config.py:112-126 | the brace scanner finds the first position where openings and closings balance, and reports none exactly when there is none |
| Expansion.SeparatorIsFirstTopLevel | src/agent_team/config.py:128-143 | the separator search finds the first `:-` outside every nested expression |
| Expansion.TokenizePrinted | src/agent_team/config.py:104-126 | scanning the printed text of a template recovers its pieces |
| Expansion.TokensAreEvaluated | src/agent_team/config.py:145-169 | expanding those pieces is evaluating the template |
| Expansion.ExpandIsEval | src/agent_team/config.py:92-171 | for every well-formed template, environment of templates, depth and stack, expanding the printed text equals evaluating the tree, errors included; termination holds for every environment |
| Expansion.FewNamesNeverTooDeep | src/agent_team/config.py:101-102 | with at most sixteen variables about, no expansion is refused as nested too deeply |
| Expansion.TooDeepIff | src/agent_team/config.py:101-102 | the seventeenth level is the first that is refused |
| Malformed.ValidNameIff | src/agent_team/config.py:151 | a name is a letter or underscore followed by letters, underscores and digits |
| Malformed.FirstExpressionDecides | src/agent_team/config.py:104-157 | for every text, template or not: a first expression whose braces never balance is refused as unterminated; if they do, a name that is none is refused, and one that is being expanded already is refused as a cycle with its chain |
| Malformed.NestedExample | src/agent_team/config.py:92-171 | a text with every form of the grammar, whose empty value gives way to a default that is an expression again |
| Expansion.FindClose | src/agent_team/config.py:112-126 | the scanning loop computes the brace scanner's function |
| Expansion.FindSeparator | src/agent_team/config.py:129-143 | the separator loop computes the separator function |
| Expansion.ExpandEnvString | src/agent_team/config.py:92-171 | the expansion loop computes the recursive expansion of every string |
| Scheduling.PendingIsDictionary | src/agent_team/engine.py:855 | the pending dictionary has every submitted id once, and is the plan itself when ids are distinct |
| Scheduling.BlockedReachesCycle | src/agent_team/engine.py:867-876 | tasks that all wait for one another reach a dependency cycle, by a pigeonhole argument on walks |
| Scheduling.RankedAvoidsCycle | src/agent_team/engine.py:863-881 | a task that ran in some wave reaches no cycle |
| Scheduling.StuckReachCycle | src/agent_team/engine.py:867-876 | when nothing is ready, exactly the pending tasks reach a cycle |
| Scheduling.CollectReady | src/agent_team/engine.py:863-866 | the ready list is exactly the pending tasks all of whose dependencies are completed or not pending |
| Scheduling.StartWave | src/agent_team/engine.py:877-883 | every ready task leaves pending and is launched; what it is handed is stated by `HandedGiven` |
| Scheduling.GatherWave | src/agent_team/engine.py:900-917 | gathering a wave keeps the invariant that links pending, completed, results, launches and waves |
| Scheduling.HandedGiven | src/agent_team/engine.py:880 | position by position: a worker is handed the reported results of exactly those entries of its dependency list that are in the plan, in the order listed |
| Scheduling.ReportCycle | src/agent_team/engine.py:867-876 | the blocked tasks get the cycle failure in pending order, one each, after every result so far |
| Scheduling.ExecutePlan | src/agent_team/engine.py:852-918 | undisturbed, one result per task under its id and role, each worker launched after its in-plan dependencies and handed exactly their reported results in the order listed, and the cycle failure for exactly the tasks that reach a cycle; otherwise it ends at its first disturbed wave: with a timeout if that wave is late, having started exactly the workers of the tasks that completed and, if the deadline passed during the wave, of those that could start; and if it is cancelled with a list that lacks exactly the tasks still pending then |
| PlanReview.Sanitize | src/agent_team/engine.py:743-771 | the first specs with known tools, as many as the worker limit, in plan order, no task depending on itself, ids renamed exactly when already seen |
| PlanReview.StripMeans | src/agent_team/engine.py:747 | stripping takes the blanks at both ends and nothing else |
| PlanReview.CleanIdMeans | src/agent_team/engine.py:747 | a cleaned id is never empty: it is the id without the blanks around it or, for a blank one, the number of the task |
| PlanReview.SanitizedId | src/agent_team/engine.py:747-750 | every sanitized id, from the plan alone: the stripped id, or its numbered form when an earlier spec has that id or was renamed to it |
| PlanReview.RenamedDistinct | src/agent_team/engine.py:750 | two renamed ids never coincide |
| PlanReview.SanitizedDistinctIff | src/agent_team/engine.py:747-750 | sanitized ids are distinct exactly when no spec whose id is taken would be renamed to the stripped id of an earlier one |
| PlanReview.StrippedDistinctSuffices | src/agent_team/engine.py:747-750 | ids that differ after stripping come through unchanged and distinct |
| PlanReview.RenameCollisionExample | src/agent_team/engine.py:748-750 | three ids the plan validator accepts as distinct whose sanitized plan repeats one |
| PlanReview.FreshReviewId | src/agent_team/engine.py:790-795 | the suffix search ends and returns the first review id no task has |
| PlanReview.EnsureReview | src/agent_team/engine.py:787-816 | a required review has a reviewer: when no task has that role, one is appended to as many tasks as the limit leaves room for, depends on exactly those, and has a fresh id; otherwise the plan is unchanged |
| PlanReview.ReviewedAcyclicIff | src/agent_team/engine.py:796-812 | adding the reviewer keeps the plan acyclic exactly when no kept task names the review id |
| PlanReview.CutPlanExample | src/agent_team/engine.py:809-811 | a plan whose cut to the worker limit frees an id a kept task names, so that task and the reviewer wait for each other |
| PlanReview.ReviewerLast | src/agent_team/engine.py:801-812 | in an acyclic reviewed plan the reviewer is launched after every other task and is handed one reported result for each of them, in plan order |
| PlanReview.FallbackTasks | src/agent_team/manager.py:32-57 | the fallback plan has one independent task per suggested role within the limit, with distinct numbered ids |
| PlanReview.SanitizePlan | src/agent_team/engine.py:733-785 | the sanitized plan stays within the worker limit with or without the reviewer and the fallback, and keeps ids distinct |
| Registry.EventAccounted | src/agent_team/runtime/lifecycle.py:186-305 | every lock-held section keeps the count equal to the number of RUNNING tasks and the slot flag equal to RUNNING |
| Registry.EndTaskAccounted | src/agent_team/runtime/lifecycle.py:229-231 | when a slot is given back the count is positive, so the clamp never fires |
| Registry.RunAccounted | src/agent_team/runtime/lifecycle.py:139-459 | slot accounting holds in every interleaving of sections |
| Registry.PruneAccountedIff | src/agent_team/runtime/lifecycle.py:439-459 | pruning keeps the books exactly when it drops no running task of a terminal worker |
| Registry.TwoTasksReached | src/agent_team/runtime/lifecycle.py:186-252 | two tasks on one worker reach a terminal worker with a running task |
| Registry.PruneLeakExample | src/agent_team/runtime/lifecycle.py:439-459 | and pruning then leaks that task's slot for ever |
| Registry.TerminalTaskAbsorbs | src/agent_team/runtime/lifecycle.py:222-305 | no section changes the record of a task that has ended |
| Registry.TerminalTaskKept | src/agent_team/runtime/lifecycle.py:222-459 | over any run an ended task keeps its record until the record is dropped |
| Registry.CancellationLeftIff | src/agent_team/runtime/lifecycle.py:186-364 | a section takes a worker out of cancellation exactly when it registers a task for it |
| Registry.CancellationWins | src/agent_team/runtime/lifecycle.py:307-364 | once marked CANCELLING (`MarkedNeverFinishes`) a worker never becomes COMPLETE or FAILED, whatever interleaves |
| Transitions.MarkedWhenWorking | src/agent_team/runtime/lifecycle.py:307-320 | the first section of cancel_worker marks a worker that has not ended as cancelling, and changes nothing else |
| Transitions.MarkedNeverFinishes | src/agent_team/runtime/lifecycle.py:307-364 | from that mark on, whatever sections interleave, the worker never becomes complete or failed unless it gets a new task |
| Transitions.CreatedIff | src/agent_team/runtime/lifecycle.py:150-170 | a worker appears exactly by a registration with fewer live workers than the limit |
| Transitions.NewWorker | src/agent_team/runtime/lifecycle.py:150-170 | and it has no task yet |
| Transitions.QueuedIff | src/agent_team/runtime/lifecycle.py:186-194 | a worker is queued exactly by a task registered for it |
| Transitions.RunningIff | src/agent_team/runtime/lifecycle.py:196-220 | it runs exactly when its pending task is started while it has neither ended nor is being cancelled |
| Transitions.CancellingIff | src/agent_team/runtime/lifecycle.py:307-320 | it is being cancelled exactly when it had not ended and is marked |
| Transitions.CompleteIff | src/agent_team/runtime/lifecycle.py:222-252 | it completes exactly when an open task of its completes and it is not being cancelled |
| Transitions.FailedIff | src/agent_team/runtime/lifecycle.py:254-284 | it fails exactly when an open task of its fails and it is not being cancelled |
| Transitions.CancelledIff | src/agent_team/runtime/lifecycle.py:222-364 | it ends cancelled exactly by a task that ends during its cancellation, by cancelling an open task of its before it ended, or by the last section of cancel_worker |
| Transitions.OtherStatesNever | src/agent_team/runtime/lifecycle.py:186-364 | no section lets a worker wait or time out |
| Transitions.WorkerFields | src/agent_team/runtime/lifecycle.py:172-364 | what becomes of its task id, its end time and its attached asyncio task |
| Transitions.WorkerKeptIff | src/agent_team/runtime/lifecycle.py:383-459 | it is dropped exactly by a prune after its end, or by a removal that leaves no running task of its |
| Transitions.TaskPendingIff | src/agent_team/runtime/lifecycle.py:186-194 | a task is pending exactly from its registration for a known worker |
| Transitions.NewTask | src/agent_team/runtime/lifecycle.py:186-194 | and belongs to that worker |
| Transitions.TaskRunningIff | src/agent_team/runtime/lifecycle.py:196-220 | it runs exactly when it is started while pending, under a worker that neither ended nor is being cancelled |
| Transitions.TaskCompleteIff | src/agent_team/runtime/lifecycle.py:222-252 | it completes exactly when it is completed while open and its worker is not being cancelled |
| Transitions.TaskFailedIff | src/agent_team/runtime/lifecycle.py:254-284 | and fails in the same way |
| Transitions.TaskCancelledIff | src/agent_team/runtime/lifecycle.py:222-305 | it ends cancelled exactly when it ends during its worker's cancellation, or is cancelled while open and its worker has not ended otherwise |
| Transitions.TaskFields | src/agent_team/runtime/lifecycle.py:186-305 | its worker never changes, and its end time is set exactly when it ends |
| Transitions.TaskKeptIff | src/agent_team/runtime/lifecycle.py:383-459 | it is dropped exactly by removing its ended worker unless it runs, or by a prune of its worker or after its own end |
| Registry.RunWorkersBounded | src/agent_team/runtime/lifecycle.py:150-194 | over any run the number of active workers never exceeds the limit, while tasks are registered on live workers |
| Registry.DisciplinedRun | src/agent_team/runtime/lifecycle.py:139-459 | with one task per worker every interleaving, pruning included, balances the books and leaves no open task under an ended worker |
| Registry.EventIsLater | src/agent_team/runtime/lifecycle.py:222-459 | sections that register nothing only end things: terminal workers and tasks stay as they are until removed |
| Registry.RemoveEnded | src/agent_team/runtime/lifecycle.py:383-425 | with its workers ended, removal takes exactly them and exactly their tasks |
| Registry.TaskRegistry.StartTask | src/agent_team/runtime/lifecycle.py:196-220 | effect of the section, and true exactly when the task is running afterwards |
| Registry.TaskRegistry.FinishTask | src/agent_team/runtime/lifecycle.py:222-284 | effect of complete_task and fail_task, and true exactly when this call ended the task as asked |
| Registry.TaskRegistry.CancelTask | src/agent_team/runtime/lifecycle.py:286-305 | effect of cancel_task, and true exactly when this call cancelled the task |
| Registry.TaskRegistry.CancelWorker | src/agent_team/runtime/lifecycle.py:307-364 | with other sections interleaved at every await, the worker ends unless its awaited task raises, and a worker that had not ended on entry is gone or CANCELLED, not merely ended; it fails exactly when the awaited task raised or a child was not reaped; nothing that ended before is touched; with nobody else about the worker is CANCELLED and its tasks over, or left CANCELLING by a task that raised, and nothing else changes |
| Registry.TaskRegistry.RemoveWorkers | src/agent_team/runtime/lifecycle.py:383-425 | the loops drop exactly the ended tasks and idle workers, and return how many records went |
| Registry.TaskRegistry.PruneTerminal | src/agent_team/runtime/lifecycle.py:439-459 | effect of pruning, and the number of records dropped |
| Registry.TaskRegistry.Cleanup | src/agent_team/runtime/lifecycle.py:427-437 | when it succeeds the requested workers are gone, and a cleanup of all workers leaves the registry empty; it succeeds when every task ends in cancellation and every child is reaped; with nobody else about the other workers and their tasks are untouched, and a failure removes nothing |
| Limiter.EventBalanced | src/agent_team/runtime/lifecycle.py:641-675 | every step keeps permits + leases + permits in flight equal to the limit, the count equal to the leases, and owners the inverse of leases |
| Limiter.RunBalanced | src/agent_team/runtime/lifecycle.py:630-675 | so in every interleaving at most the limit of leases is out |
| Limiter.RepeatedReleaseIdle | src/agent_team/runtime/lifecycle.py:655-675 | after a lease is released, releasing it again at any later time by anyone changes nothing |
| Limiter.TargetIff | src/agent_team/runtime/lifecycle.py:655-668 | a release finds the lease it names if that is held, and otherwise one of the task's own, if it has any |
| Limiter.AcquireReleaseInverse | src/agent_team/runtime/lifecycle.py:641-675 | acquire then release, by lease or by task, restores everything but the identity of the next lease |
| Limiter.LeaseRun | src/agent_team/runtime/lifecycle.py:641-675 | whatever steps others take, taking them with one lease held and without it differs by that lease and nothing else |
| Limiter.GivenUpLeavesNoTrace | src/agent_team/runtime/lifecycle.py:641-653 | a wait that is cancelled, before or after its grant, leaves exactly what the others did meanwhile |
| Limiter.HolderLeavesNoTrace | src/agent_team/runtime/lifecycle.py:641-675 | a worker that waits for a slot, holds it and releases it leaves the books of the others alone, whatever they do while it waits and while it runs |
| Limiter.ReleaseAdmits | src/agent_team/runtime/lifecycle.py:641-675 | any holder's release lets a waiting worker in, however full the limiter is |
| Limiter.ConcurrencyLimiter.Acquire | src/agent_team/runtime/lifecycle.py:641-653 | with others stepping while it waits and between its grant and its registration, it has the effect of that script and is true exactly when it was admitted |
| Limiter.ConcurrencyLimiter.Release | src/agent_team/runtime/lifecycle.py:655-675 | effect of the locked section, and true exactly when the lease, or the task's latest one, was registered |
| Limiter.ConcurrencyLimiter.Interleave | src/agent_team/runtime/lifecycle.py:641-675 | the fields move through any possible steps of the others as the events say |
| LifecycleBoundary.DeadlineFixed | src/agent_team/runtime/cancellation.py:163-194 | until a team is finished its deadline cannot move, however often it is started or read |
| LifecycleBoundary.BudgetShrinks | src/agent_team/runtime/cancellation.py:225-233 | the remaining budget only shrinks, by exactly the time that passed until it is spent |
| LifecycleBoundary.StartedBudget | src/agent_team/runtime/cancellation.py:163-233 | the budget of a started team is the team timeout less the time gone by, and a finished team has none |
| LifecycleBoundary.FirstStartDecides | src/agent_team/runtime/cancellation.py:163-194 | the first start since a team was last finished sets its deadline, whatever happens before and after |
| LifecycleBoundary.FinishedHasNone | src/agent_team/runtime/cancellation.py:196-223 | a finished team has no deadline until it is started again |
| LifecycleBoundary.TeamsAfterRuns | src/agent_team/runtime/cancellation.py:163-233 | among all the steps of the others, the deadlines are those of the steps on teams |
| LifecycleBoundary.OthersUntouched | src/agent_team/runtime/cancellation.py:163-233 | nothing done for one team touches another's deadline, and reading marks exactly a spent one as expired |
| LifecycleBoundary.TimeoutEnforcer.StartTeam | src/agent_team/runtime/cancellation.py:163-194 | a team's deadline is set once; a second start returns the first |
| LifecycleBoundary.RunWithTeamDeadline | src/agent_team/runtime/cancellation.py:251-277 | no wait outlives the remaining budget or the asked timeout; a timeout, the awaitable's own included, is reported as the project's exactly when the budget bounded the wait and is spent when it is read again, whatever others did to the deadlines meanwhile; any other outcome is passed through |
| LifecycleBoundary.Supervise | src/agent_team/runtime/cancellation.py:338-366 | the worker's own limit is exactly the smaller of the task timeout and the remaining budget; an expired project never starts the worker; a TimeoutError of its own is handled as a timeout; each outcome, with a failed or interrupted reaping, is the one of the code; its start time is set before the others' steps on the enforcer |
| LifecycleBoundary.RunInSlot | src/agent_team/runtime/cancellation.py:332-377 | from waiting for the slot to giving it back, with others at work throughout: the limiter is left as the others alone would have left it |
| LifecycleBoundary.TurnedAway | src/agent_team/runtime/cancellation.py:318-337 | and so when the worker never gets its slot |
| LifecycleBoundary.EnforceWorkerLifecycle | src/agent_team/runtime/cancellation.py:309-377 | on every exit, with others acquiring and releasing slots and starting and finishing tasks and teams while it waits and runs, the limiter balances and is what they alone would have made of it, the deadlines are theirs, and the start times are theirs exactly unless somebody else timed the same task id; the outcome is justified by the budget at each reading |
| LifecycleBoundary.WorkerTurnBudget.Consume | src/agent_team/runtime/cancellation.py:60-85 | the turns never exceed the budget, and an expired project is reported before a spent budget |
| CompletionGate.Merge | src/agent_team/engine.py:1119-1127 | per id the merged result is the first of the highest-ranked ones |
| CompletionGate.MergeIgnoresOrder | src/agent_team/engine.py:1119-1127 | the merged status of every id depends only on which results were reported, not on worker order |
| CompletionGate.EvidenceOrderExample | src/agent_team/engine.py:1119-1123 | two orders of the same two results, of which one leaves a satisfied requirement without evidence |
| CompletionGate.OrderFreeIff | src/agent_team/engine.py:1119-1127 | what one looks at in the merged results (whether there is evidence, say, or the whole result) is the same in every order exactly when the highest-ranked results of each id agree on it |
| CompletionGate.WorkerOrderFreeIff | src/agent_team/engine.py:1117-1127 | whether an id ends up proven is the same in every order of the workers exactly when the workers that claim it agree on having evidence |
| CompletionGate.CompletesInEveryOrderIff | src/agent_team/engine.py:1117-1156 | a project is complete in every order of its workers exactly when it is complete in this one and every worker that calls a required requirement satisfied, or a criterion passed, gives evidence the first time |
| CompletionGate.AgreedStatusOrderFree | src/agent_team/engine.py:1117-1156 | complete or not, the answer is the same in every order when the workers agree on every id asked for |
| CompletionGate.AllDoneIff | src/agent_team/engine.py:1149-1156 | the engine's test on the merged results, in the workers' own claims: the first worker to call it satisfied, or passed, gave evidence |
| CompletionGate.UniqueArtifacts | src/agent_team/engine.py:1161-1166 | the artifacts kept are, in order, exactly the first of each path |
| CompletionGate.ArtifactsAre | src/agent_team/engine.py:1128 | the artifacts that go in are those of the workers |
| CompletionGate.ArtifactsInOrder | src/agent_team/engine.py:1128 | worker after worker |
| CompletionGate.HandoffOfTask | src/agent_team/engine.py:1080-1094 | a worker speaks only for its task's requirements, and an unreported one counts as satisfied exactly when the worker finished |
| CompletionGate.HandoffCovers | src/agent_team/engine.py:1078-1094 | a worker's own claims about its task are passed on; if it has none, every requirement of the task is claimed once, in order, with its listed evidence and its summary |
| CompletionGate.WithinEach | src/agent_team/engine.py:1080-1084 | own claims are kept or dropped one by one, in order |
| CompletionGate.BuildReport | src/agent_team/engine.py:1109-1190 | each id is reported in a worker's own claim, as the best any worker makes; a requirement nobody claims is unsatisfied and a criterion nobody claims not verified, without evidence, and such a report is never acceptable if the requirement is required; complete exactly when not cancelled, something is required, for every required requirement and every criterion asked or claimed the first worker to call it satisfied or passed gave evidence, and no worker stopped; blocked exactly when cancelled or without workers; artifacts are the first of each path |
| CompletionGate.UnclaimedNotAcceptable | src/agent_team/engine.py:1131-1148 | a required requirement or a criterion that nobody claims keeps a report from being accepted |
| CompletionGate.Validate | src/agent_team/principal.py:63-124 | each issue is found exactly when the report has that fault, and none exactly when the report is acceptable in the brief's terms |
| CompletionGate.RequiredProvenIff | src/agent_team/principal.py:86-91 | an accepted report satisfies every required requirement with evidence exactly when it calls none of them not applicable |
| CompletionGate.NotApplicableExample | src/agent_team/principal.py:86-91 | a partial report accepted with its required requirement not applicable and nothing proven |
| CompletionGate.AcceptableComplete | src/agent_team/principal.py:84-118 | an acceptable complete report has every requirement satisfied with evidence, every criterion passed, every artifact verified and nothing unresolved |
| CompletionGate.Gate | src/agent_team/engine.py:594-611 | a project is returned as complete exactly when its first report was complete and acceptable, and then it is that report; a repair can make it valid but never complete; the issues left are exactly the faults of the two reports |
| CompletionGate.RepairedDemotedExample | src/agent_team/engine.py:600-610 | a first report that fails and a repaired complete one with nothing to find, which the gate still demotes |
| CompletionGate.CompleteIsBacked | src/agent_team/engine.py:1119-1151 | every requirement of a complete project was claimed satisfied with evidence by some worker |
| PiReconciler.NormalizedShape | src/agent_team/pi_reconciler.py:587-616 | normalizing keeps the unmanaged entries in order, leaves exactly one owned entry, and is stable |
| PiReconciler.NormalizedIff | src/agent_team/pi_reconciler.py:587-606 | normalizing fails exactly when Pi changed another setting or left no entry for the package |
| PiReconciler.UnmanagedCounts | src/agent_team/pi_reconciler.py:607-611 | it keeps every entry that points elsewhere, as often as it was there, and drops every managed one |
| PiReconciler.UnmanagedConcat | src/agent_team/pi_reconciler.py:607-611 | one after the other, so that those kept stay in their order |
| PiReconciler.DriftFreeIff | src/agent_team/pi_reconciler.py:718-788 | each kind of drift: none is found exactly when the state can be read and names its release, which is there, marked, valid and of the recorded digest, and the settings can be read, agree with the recorded ones, and have the package as their only managed entry |
| PiReconciler.DriftFreeOneEntry | src/agent_team/pi_reconciler.py:765-779 | settings without drift hold exactly one owned entry |
| PiReconciler.NormalizedDriftFree | src/agent_team/pi_reconciler.py:718-788 | release, normalized settings and written state together show no drift |
| PiReconciler.NextStateSound | src/agent_team/pi_reconciler.py:634-662 | writing the state keeps the history free of repeats and ending in current, and last-known-good the revision before it in the history, if there is one |
| PiReconciler.SoundDiffers | src/agent_team/pi_reconciler.py:634-662 | so the last known good revision is never the current one |
| PiReconciler.NextSucceeds | src/agent_team/pi_reconciler.py:634-662 | from any state: installing the current revision again keeps last-known-good, installing another makes the current one last-known-good, and the old history is a prefix of the new |
| PiReconciler.InstallsSound | src/agent_team/pi_reconciler.py:634-662 | so over any number of states written one after the other |
| PiReconciler.InstallsHistory | src/agent_team/pi_reconciler.py:634-662 | from a first install on, the history is the list of installed revisions without immediate repetitions, and last-known-good follows from it |
| PiReconciler.Reconciler.Materialize | src/agent_team/pi_reconciler.py:467-507 | when a release can be put in place, what it is then, and which releases are gone when it cannot |
| PiReconciler.Reconciler.Reconcile | src/agent_team/pi_reconciler.py:811-902 | a failure at any step restores settings and state bytes; without git's package, readable files or a root of its own it does nothing; a release directory not marked as this one is refused and left alone, an intact one is kept as Pi left it, and one it met drifted is deleted by a failure; success is drift-free, leaves the settings file untouched if Pi left it normalized, records the package as Pi left it, keeps last-known-good when the current revision is installed again and moves it otherwise; a cooperating Pi suffices for success |
| PiReconciler.Reconciler.Rollback | src/agent_team/pi_reconciler.py:904-914 | rolling back reconciles the last known good revision, or fails leaving settings and state; with one to go back to a cooperating Pi suffices |
| PiReconciler.ReconcileRepeatedly | src/agent_team/pi_reconciler.py:811-902 | over any number of reconciles, failures included, the state is what the successful ones wrote in their order: no history is rewritten, and one that starts here is their revisions without immediate repetitions, with last-known-good the one before the last; nothing outside the packages list ever changes |
| PiReconciler.RollBackTwice | src/agent_team/pi_reconciler.py:904-914 | a rollback that succeeds swaps the two revisions, and a second one that succeeds restores both |
| PiReconciler.LostReleaseExample | src/agent_team/pi_reconciler.py:480-483 | a failed repair of a drifted current release leaves a state naming a release that is gone |
| PiReconciler.AlteredPackageExample | src/agent_team/pi_reconciler.py:866-876 | a reconcile that succeeds with a package Pi altered while installing it, which git does not have |
| SemVer.Trichotomy | src/agent_team/doctor.py:42-58 | of less, equal and greater exactly one holds |
| SemVer.Transitive | src/agent_team/doctor.py:45-58 | the order is transitive |
| SemVer.EqualIsCongruent | src/agent_team/doctor.py:42-48 | equal versions compare alike with every other, and build metadata is never looked at |
| SemVer.LessIsPrecedence | src/agent_team/doctor.py:45-58 | the comparison is the precedence of section 11 of Semantic Versioning 2.0.0 |
| SemVer.LeadingZeroExample | src/agent_team/doctor.py:39-40 | identifiers with leading zeros would be neither equal nor ordered, which is what the constructor's check excludes |
| SemVerText.ParsePrint | src/agent_team/doctor.py:30-38 | every valid version is read back from its text |
| SemVerText.PrintParse | src/agent_team/doctor.py:30-40 | a text that is accepted is the print of the valid version it is read as |
| SemVerText.AcceptedIff | src/agent_team/doctor.py:30-40 | the constructor accepts exactly the texts of valid versions |
| SemVerText.IdentifierIff | src/agent_team/doctor.py:30 | an identifier is a non-empty text of letters, digits and hyphens |
| SemVerText.PreIdentifierIff | src/agent_team/doctor.py:38-40 | and before the release a number has no leading zero |

## Left out

- Knowledge migration: SQLite and its schema checks, the byte-lock probe, fsync and temporary files, path safety checks, modes and times, the private copies the verifiers work on, and sidecars of snapshots and of the staged candidate.
- Knowledge migration: the refusal of several or unknown pending journals, stray plain files among the archives, and the time budget (a passed deadline is a process that dies).
- Knowledge migration: `inspect_knowledge` and `prepare_knowledge` around the protocol, and the lease itself, which is taken to exclude other writers.
- Environment expansion: `_expand_env_vars` over containers, which only maps the string expansion, and `os.path.expanduser`, which is a parameter.
- Scheduling: asyncio task bookkeeping (`project.worker_tasks`, cancelling the started workers of a wave); a timeout raised by a worker and one found after a wave are one signal.
- Plan sanitizing: the role catalogue and its aliases are a parameter, and requirement ids, context, objectives and notes, which no scheduling decision depends on, are not carried.
- Registry: child processes and their reaping are represented by whether reaping succeeds; started times, results and error texts are not kept.
- Registry.TaskRegistry.Yield: a coroutine that registers a worker or a task during a cleanup is excluded, because the emptiness promised for cleanup does not survive it.
- PlanReview.ReviewerLast: is about undisturbed runs; with a cancel event the reviewer may not run at all.
- Completion gate: texts, findings, risks and recommendations, the verification of artifacts against the file system, and the order of lists built from dictionaries.
- Pi reconcile: a state file whose current revision is the empty string, which the code treats as none; git archives, tar extraction, the manifest validator, file locks and symlink refusals; a restore that itself fails; dry runs; a Pi that changes files other than its settings and the package it installs.
- SemVerText.AcceptedIff: CPython 3.11 and later refuses to read a number of more than 4300 digits (doctor.py, lines 37 and 54), in the constructor and in the comparison of numeric identifiers; the model's numbers are unbounded.
- Versions: the rest of doctor, and reading version numbers out of command output.
- Retention, sessions, provenance, the control plane, the HTTP service, the foreground server and model clients.
