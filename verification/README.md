# depengine, modelled and proved in Dafny

depengine installs the tools a project declares. A tool has an ordered list of method candidates (native
package manager, release download, container image, ...); the executor tries them in turn, prepares package
sources in a transaction with a commit boundary, pulls in prerequisites lazily from several workers, and keeps
a state file, a lock and a download cache. This project models that decision logic and proves what it keeps.
Adapters, the network, the file system and subprocesses are fixed answers: of a candidate, of a host, of a
`World`.

`dafny verify dfyconfig.toml` checks everything.

| file | what it holds |
|---|---|
| `Basics.dfy`, `Strings.dfy` | optional values, sequences; splitting, cutting, trimming and ordering of strings |
| `LazyDependencies.dfy` | the lazy dependency protocol over the levels of a whole run, as a state machine over the steps of concurrent workers |
| `LazyProgress.dfy` | every run of it is finite, and with acyclic requirement edges every run completes |
| `LazyBlocking.dfy` | what a failed requirement blocks: the dependent's body, and the rest of a method |
| `LazyRoles.dfy` | which tools are begun as tools of a level, which as dependencies, and which as both |
| `Candidates.dfy`, `Pipeline.dfy` | the answers about a candidate, the durable host state, and every phase of an attempt as a function |
| `Attempts.dfy` | the same phases as methods on the attempt, report and machine objects they update, each proved equal to its function, and safe as a whole |
| `Transactions.dfy` | rollback, and what preparation and selection leave behind |
| `CommitBoundary.dfy` | safety from the pre-hook on, behind the commit boundary, and over whole runs |
| `InstallOutcomes.dfy` | when an install ends the tool installed or failed, and when the next method is tried |
| `RunVerdicts.dfy` | how a run ends that no candidate decides |
| `PhaseOutcomes.dfy` | what single phases decide: undoing, blocking preparations, prerequisites, hooks, the end of the context |
| `ForgottenTransactions.dfy` | which transactions are forgotten with the state lock held, and what that does to the tool |
| `SisterLoops.dfy` | batch preflight, lock resolution and `why`, and where they agree with the executor |
| `Removal.dfy`, `RemovalSafety.dfy` | reference-counted removal, its confluence and conservation |
| `RemovalLiveness.dfy` | what a removal owes, and what its answer says |
| `RemovalSession.dfy` | the same as the session object runs it |
| `Layers.dfy` | what merging configuration layers means, and why it may be regrouped |
| `LayerPrecedence.dfy` | which layer wins, key by key and field by field |
| `Trees.dfy`, `LayerMerge.dfy` | tables and lists as objects and their deep copies; the merge over objects, none of which it may share |
| `MethodOrder.dfy` | ordering by in-place extraction, parse-time ordering, selector lists |
| `Specialize.dfy` | distribution specialization and the validation that covers every host |
| `Placeholders.dfy` | the token scanner and its two expansion passes |
| `Closures.dfy` | the tool filters and dependency closures |
| `LockAssembly.dfy` | universal lock assembly, intent drift and retention |
| `DownloadCache.dfy` | eviction, stores and lookups |
| `Challenge.dfy`, `NpmVersion.dfy` | two text grammars |

## What the proofs found

Where the code keeps less than a reader would expect, the exact condition is proved, with an input that shows it.

- Single flight is kept among dependencies and among the tools of the levels, but not across. A tool of a level to
  which method prerequisites lead is begun in both roles in some run, and its two bodies can be under way at the same
  time; the roles stay apart in every run exactly where no path of calls leads to a tool of a level
  (`LazyRoles.BegunBothWaysExactlyWhere`, `LazyRoles.RolesStayApartExactlyWhere`, `LazyRoles.TwinBodiesExample`).
- The executor looks a package up in the index before it observes the target; `why` and the batch observe
  first. A candidate that is installed but no longer indexed is reported as installed by them and passed over by
  the executor (`SisterLoops.InstalledReportNeedsTheIndex`, `SisterLoops.RecordedAgreesIffIndexed`,
  `SisterLoops.InstalledNotIndexedExample`).
- Lock resolution and `why` reject a candidate whose resolver returns no plan; the executor goes on with it. Lock
  resolution also passes over a candidate whose source revisions cannot be recorded
  (`SisterLoops.LockSelectsLikeInstall`, `SisterLoops.WhyPredictsDryRun`, `SisterLoops.PlanlessExample`,
  `SisterLoops.RevisionExample`).
- When the target of a resolved candidate cannot be verified after its transaction was prepared, the executor goes
  on to the next method with the transaction open and the state lock held. The first later candidate that needs
  the lock waits for this very process until the tool's context ends, and the tool fails on it. A lock file that the
  runtime closes in the meantime, because it collects the dropped transaction, is not modelled
  (`ForgottenTransactions.OpenTransactionForgotten`, `ForgottenTransactions.ForgottenTransactionEndsTheTool`,
  `ForgottenTransactions.ForgottenTransactionExample`).
- An install that is proved committed, by the installer's success or by observation after it failed, but whose final
  record cannot be saved, fails the tool with the committing journal on file and without naming the open boundary
  (`CommitBoundary.NotFinalizedExactlyWhere`, `CommitBoundary.UnrecordedCommitExample`).
- Parse-time ordering of methods is invisible later exactly when candidates that share a display name already
  stand in the parse-time order (`MethodOrder.ParseOrderIsInvisible`, `MethodOrder.NamesakesExample`).
- A `pkg_overrides` value that is not a table breaks associativity of layering in exactly one situation
  (`Layers.EntryAssociative`, `Layers.OverrideExample`).
- The cache's package comment promises that eviction brings it back under the limit. It does exactly when the
  entries that cannot be removed fit, and what was just stored may go because of them
  (`DownloadCache.WithinLimitExactlyWhere`, `DownloadCache.NewestGoesOnlyAlone`, `DownloadCache.StuckEntryExample`).
- `parseChallenge` accepts exactly a scheme and comma-separated key="value" pairs with optional space, and one comma
  behind the last; no escapes and no token values, both of which section 2.1 of RFC 7235 has
  (`Challenge.AcceptedExactlyWhere`, `Challenge.TokenIsRejected`, `Challenge.TrailingCommaIsAccepted`).

Callees with fixed contracts, read from their source: the preparation transaction and its journal
(internal/exec/preparation.go, internal/state/preparation.go), release and finalization of owned resources
(internal/plan/preparation.go:530-600), the transition chosen for a verification
(internal/plan/lifecycle.go), and the terminal errors (specialization and resolution only).

## Model

| member | source | states |
|---|---|---|
| LazyDependencies.SingleFlight | internal/exec/execute.go:447-493 | over all levels of a run, in every interleaving, a dependency body begins at most once, never for a commit reconciled at startup, and every caller that was not cancelled receives the owner's recorded result |
| LazyDependencies.InvKept | internal/exec/execute.go:417-493 | every step of every worker, and the start of every level, keeps the invariant: stacks wait on what they called, a running name has one frame, on its owner's stack, and every value handed out is authentic |
| LazyDependencies.InvHolds | internal/exec/execute.go:127-140 | the invariant holds in every state of every run over its levels |
| LazyDependencies.LevelToolsBegunInOrder | internal/exec/execute.go:518-578 | over the whole run, the level tools begun, followed by those still in the channel, are the known tools sent down a channel, in order; none is sent oftener than the levels list it, and no reconciled commit |
| LazyDependencies.NoLevelToolTwice | internal/exec/execute.go:127-140 | levels that list no tool twice begin none twice as a tool of a level |
| LazyDependencies.ExitedEmptiesQueue | internal/exec/execute.go:518-578 | a worker leaves an uncancelled run only when the channel is empty, so every level finds an empty one |
| LazyProgress.RunsAreFinite | internal/exec/execute.go:127-140 | every run over its levels is finite for any requirements, cyclic ones included: each step uses up work that only the schema and the levels bound |
| LazyProgress.NoDeadlock | internal/exec/execute.go:371-391 | with acyclic requirement edges a state in which nothing can happen ends a completed run: every worker gone, every claimed dependency settled, and, unless cancelled, every level started and every known tool sent down a channel begun |
| LazyProgress.MaximalRunsComplete | internal/exec/execute.go:127-140 | a run that nothing can prolong has completed, within the work there was at its start |
| LazyProgress.EveryRunCanComplete | internal/exec/execute.go:127-140 | every run, however far it has come, can be prolonged to a completed one without being cancelled |
| LazyProgress.OwnerIsLower | internal/exec/execute.go:447-493 | a worker blocked on a name waits for an owner whose own pending name stands strictly lower in the graph |
| LazyProgress.SomeoneIsFree | internal/exec/execute.go:447-493 | with acyclic edges some worker can always act while one has not left |
| LazyProgress.SelfRequirementDeadlocks | internal/exec/execute.go:447-493 | acyclicity is needed: a dependency that requires itself waits for itself for ever |
| LazyProgress.AllDependencyEdges | internal/exec/execute.go:371-391 | every tool's edges are its requirements first, then those of its methods that are new, without repetition, and nothing else |
| LazyProgress.ToolEdges | internal/exec/execute.go:371-391 | the same for one tool, from its candidates in order |
| LazyDependencies.CancelledBeginsNothing | internal/exec/execute.go:518-565 | once the run is cancelled no tool of a level is begun and no level is started |
| LazyBlocking.BodiesFollowRequirements | internal/exec/execute.go:471-488 | in every run, a claimed dependency has reached its body only if its owner was handed, for each of its requirements, a result that says installed, already, would install or virtual |
| LazyBlocking.PrerequisitesInOrder | internal/exec/execute.go:417-445 | a method calls a prerequisite only behind such a result for every earlier one, of tools of levels too |
| LazyBlocking.FailedRequirementBlocks | internal/exec/execute.go:468-491 | in every run, a dependency that is not declared, requires a name settled otherwise, or whose owner was refused a requirement by a result or a cancellation, is settled as failed if at all; every settled result names its dependency |
| LazyBlocking.AnswerDecides | internal/exec/execute.go:417-488 | one answer either takes the name off the list or, for a requirement of the tool, closes it as failed, and for a prerequisite gives the whole method up |
| LazyRoles.ClaimedIsCalled | internal/exec/execute.go:447-493 | in every run, whatever the requirements, a dependency is claimed only if a path of calls leads to it: from a tool of a level to a prerequisite of one of its methods, and on along requirements, past no reconciled commit |
| LazyRoles.EveryRoleIsTaken | internal/exec/run.go:532-566 | on a graph the sorter accepts, some uncancelled run completes with all that remains of every level begun, in order, and exactly the names claimed to which such a path leads |
| LazyRoles.BegunBothWaysExactlyWhere | internal/exec/execute.go:447-578 | some run begins a name both as a tool of a level and as a dependency exactly when it is a tool of a level to which a path of calls leads |
| LazyRoles.RolesStayApartExactlyWhere | internal/exec/execute.go:393-493 | the level tools begun and the dependencies claimed are disjoint in every run exactly when no path of calls leads to a tool of a level |
| LazyRoles.TwinBodiesExample | internal/exec/execute.go:447-578 | two tools of one level, one with a method that requires the other: two workers are in bodies of the same tool at the same time |
| Attempts.TryMethods | internal/exec/execute.go:257-285 | the candidate loop, with the context checks around every candidate, leaves the machine and the report as the run function says: every source and journal on file is kept, a new source is declared by a candidate, and a new journal belongs to the deciding candidate or to one that forgot its transaction |
| Attempts.CandidateAttempt.Run | internal/exec/execute.go:314-343 | one candidate through the eight phases, in order; whatever it answers, old journals and sources survive, and handing over leaves no journal and no source of its own unless its transaction was forgotten |
| Attempts.CandidateAttempt.SelectCandidateForTransition | internal/exec/attempt.go:275-283 | sources are probed, missing ones prepared, and availability is checked afterwards |
| Attempts.CandidateAttempt.PrepareMissingSources | internal/exec/attempt.go:314-330 | missing sources go through a transaction, and a failed one ends the tool or the candidate as specified; a lock this process holds is waited for until the context ends |
| Attempts.CandidateAttempt.PrepareCandidateSources | internal/exec/preparation.go:171-273 | sources are added one by one under the state lock, each journaled before and after; a failure is settled by recovery and rollback |
| Attempts.CandidateAttempt.AddSource | internal/exec/preparation.go:171-273 | one source: journaled, added, recorded, or settled |
| Attempts.CandidateAttempt.RollBack | internal/exec/preparation.go:353-449 | rollback undoes applied sources in reverse, keeps claimed ones, removes the journal and releases the lock, or reports what stopped it |
| Attempts.CandidateAttempt.ApplyRollback | internal/exec/preparation.go:407-449 | the undo loop, stopping at the first source that cannot be removed |
| Attempts.CandidateAttempt.RecheckPostPrepareAvailability | internal/exec/attempt.go:336-350 | a package that is still absent after preparation is rolled back and passed over |
| Attempts.CandidateAttempt.GateAlreadyInstalled | internal/exec/attempt.go:214-253 | the verified state decides between ending the tool, passing on with no rollback, and an install or upgrade transition |
| Attempts.CandidateAttempt.RunCandidatePreinstall | internal/exec/attempt.go:355-372 | an aborting hook ends the tool after rollback |
| Attempts.CandidateAttempt.RequireMethodPrerequisites | internal/exec/attempt.go:377-434 | prerequisites run with the transaction suspended; their failure rolls back and passes the candidate over |
| Attempts.CandidateAttempt.InstallCandidate | internal/exec/attempt.go:476-605 | credentials, replacement, commit plan, installer and settlement as specified |
| Attempts.CandidateAttempt.RunInstaller | internal/exec/attempt.go:476-605 | a terminal installer error leaves the boundary unresolved, another one is reconciled |
| Attempts.CandidateAttempt.ReconcileFailedOwnerCommit | internal/exec/attempt.go:438-459 | a failed install with a planned intent is finalized, rolled back, or left unresolved by what observation proves |
| Attempts.CandidateAttempt.FinishInstalled | internal/exec/attempt.go:680-780 | the final record, its failure, and the hooks after it |
| Attempts.Report.FinishExhausted | internal/exec/attempt.go:784-803 | when no candidate is left, the status says whether any was attempted |
| CommitBoundary.FallThroughIsRolledBack | internal/exec/attempt.go:355-605 | from the pre-hook phase on, going on to the next method leaves the transaction absent or rolled back and the host as before, but for sources other tools claim |
| CommitBoundary.FailedInstallIsSettled | internal/exec/attempt.go:438-605 | a failed install behind the boundary, planned or not, is proved committed and recorded, or proved not applied and rolled back, or ends the tool with the committing journal on file; which one, and what the report says, follows from the observation alone |
| CommitBoundary.NotFinalizedExactlyWhere | internal/exec/attempt.go:476-722 | the tool ends with its final record unsaved exactly when that save fails behind an installer that succeeded, or behind a failed one that observation proves committed; then the committing journal stays on file and the lock is free |
| CommitBoundary.UnrecordedCommitExample | internal/exec/preparation.go:336-351 | a candidate whose target is installed, yet the tool fails, is not recorded, and its journal stays committing |
| InstallOutcomes.PlainInstall | internal/exec/attempt.go:476-605 | without a transaction the next method is tried exactly behind an installer error that is not terminal; the tool ends installed exactly when the installer succeeds, its target is verified and no hook fails; every other case fails it here |
| InstallOutcomes.CommittedInstall | internal/exec/attempt.go:438-605 | behind the commit boundary the next method is tried exactly when a failed install is proved not applied and undone; the tool ends installed exactly when it is proved committed, recorded and no hook fails; every other case fails it here |
| InstallOutcomes.InstallGates | internal/exec/attempt.go:476-530 | in front of the installer a dry run announces, missing credentials undo and pass over, an upgrade is left to the replacement, and an unwritten commit record fails the tool |
| InstallOutcomes.TerminalErrorEndsTheTool | internal/exec/attempt.go:554-577 | behind a terminal installer error no later candidate is attempted, with a transaction or without: the run is the run of that candidate alone, and fails on it |
| InstallOutcomes.RecoverableErrorHandsOver | internal/exec/attempt.go:596-604 | behind any other installer error without a transaction the rest of the candidates decides, with one failed attempt listed |
| InstallOutcomes.TerminalErrorExample | internal/exec/attempt.go:554-577 | behind an integrity mismatch the second candidate is not tried; behind another error it installs |
| RunVerdicts.HandingOverLists | internal/exec/execute.go:314-343 | a candidate that hands over is listed once, with the first of its answers that speaks against it |
| RunVerdicts.UndecidedRun | internal/exec/attempt.go:784-803 | a run that no candidate decides ends failed, skipped by condition or unavailable exactly as the answers of its candidates sum up, and names the last one; no other run ends skipped |
| RunVerdicts.SkippedWhenExactlyWhere | internal/exec/attempt.go:89-110 | a tool is reported as gated by its platform exactly when the condition of every candidate fails before anything else and the context lasts |
| PhaseOutcomes.UndoStops | internal/exec/preparation.go:353-449 | undoing goes from the last source to the first and stops at the first that is not cleanly taken away; what comes before it is still there |
| PhaseOutcomes.RollbackSucceedsExactlyWhere | internal/exec/preparation.go:353-449 | a rollback succeeds exactly when its journal can be rolled back, the lock can be taken again, and every unclaimed source and every record is undone cleanly |
| PhaseOutcomes.PreparationBlocksExactlyWhere | internal/exec/preparation.go:171-273 | a failed preparation ends the tool exactly when the first source that is not cleanly added leaves something that cannot be settled; every other failure passes the candidate over |
| PhaseOutcomes.StepsAreJournaled | internal/exec/preparation.go:190-262 | what each step of a preparation leaves on file: the sources confirmed, and the one whose addition was begun and not settled |
| PhaseOutcomes.TargetDecides | internal/exec/attempt.go:214-253 | what is known of the target decides between installed already, the next method, an install and an upgrade |
| PhaseOutcomes.HooksDecide | internal/exec/attempt.go:355-376 | a schedule that cannot be computed, or a live hook that aborts, ends the tool and says whether the preparation was undone; otherwise it is remembered whether any ran |
| PhaseOutcomes.PrerequisitesDecide | internal/exec/attempt.go:377-434 | a candidate gets past its prerequisites exactly when they are met and the lock can be given up and taken back, or a transaction opened for them |
| PhaseOutcomes.UncommittedInstall | internal/exec/attempt.go:489-530 | a commit record that cannot be written, and missing credentials, say whether the preparation was undone; a dry run lists a success |
| PhaseOutcomes.ContextReportedExactlyWhere | internal/exec/execute.go:257-310 | a tool fails with its context exactly when the context ended on a candidate that handed over or failed the tool; one that was installed is reported so |
| Transactions.PreparePrepares | internal/exec/preparation.go:171-273 | preparation ends with every missing source present and journaled, or with the host as before, or with a journal that accounts for what was left |
| Transactions.RollbackJournaled | internal/exec/preparation.go:353-449 | a rollback that succeeds restores the host and drops the journal; one that fails keeps the journal of what is left |
| Transactions.SelectedExit | internal/exec/attempt.go:89-350 | the phases before verification leave either a consistent open transaction or nothing |
| CommitBoundary.MutatingExit | internal/exec/attempt.go:355-605 | the phases from the pre-hook on always decide, and leave a journal only with a failed or replacing tool |
| CommitBoundary.AttemptExit | internal/exec/execute.go:314-343 | how a whole attempt leaves sources and journals |
| CommitBoundary.AttemptStatuses | internal/exec/execute.go:314-343 | going on never decides the tool, and a decided tool names its candidate |
| CommitBoundary.RunLeavesNoOtherTrace | internal/exec/execute.go:257-285 | over all candidates: old journals and sources survive, a new journal belongs to the deciding candidate or to one that forgot its transaction, and a new source is declared by a candidate |
| ForgottenTransactions.OpenTransactionForgotten | internal/exec/attempt.go:214-253 | read off the answers, exactly which candidates hand over to the next method with their transaction open, and the host they leave: the lock held, the sources added, the journal on file |
| ForgottenTransactions.SelectedAnswers | internal/exec/attempt.go:89-350 | read off the answers, exactly which candidates are selected with a transaction open and which wait for the lock |
| ForgottenTransactions.AttemptOnHeldLock | internal/state/lock_unix.go:36-74 | while this process holds the lock, exactly the candidates that come to the point of taking it wait until the context ends, and none changes the host |
| ForgottenTransactions.FirstWaiterEndsTheTool | internal/exec/execute.go:257-310 | the first candidate that waits is the last one attempted, and the tool fails with its context unless an earlier candidate ended it |
| ForgottenTransactions.ForgottenTransactionEndsTheTool | internal/exec/execute.go:257-310 | behind a forgotten transaction the lock is never given back and the first later candidate that needs it ends the tool, whatever would follow |
| ForgottenTransactions.ForgottenTransactionExample | internal/exec/attempt.go:214-253 | two candidates: in one order the tool installs, in the other it fails and leaves lock and journal behind |
| SisterLoops.ResolveLockCandidate | internal/exec/lock_resolution.go:86-160 | the loop returns the first candidate that survives, a terminal error, or the error to report |
| SisterLoops.LockSelectsLikeInstall | internal/exec/lock_resolution.go:35-160 | lock resolution and the serial selection choose the same candidate, stop alike, or both find none, exactly when the picked candidate has a plan and its revisions apply |
| SisterLoops.LockedPlanIsTheCandidates | internal/exec/lock_resolution.go:86-160 | the plan locked is the plan resolved for the locked candidate |
| SisterLoops.LastFailureIsReported | internal/exec/lock_resolution.go:86-160 | where nothing can be locked the error is that of the last candidate that failed by itself, and of the first if all were only unavailable |
| SisterLoops.UnselectedAreListed | internal/exec/explain.go:233-258 | exactly the declared candidates that were not selected are listed as left out by the policy |
| SisterLoops.UnselectedInOrder | internal/exec/explain.go:233-258 | one by one, in their order |
| SisterLoops.WhyListsLikeDryRun | internal/exec/explain.go:102-232 | what `why` says of a candidate whose target is certainly not as desired is what the dry run lists when it gives the candidate up |
| SisterLoops.DrySelection | internal/exec/attempt.go:89-350 | in dry-run the serial selection is decided by the shared gates and obtainability, and changes nothing |
| SisterLoops.ExplainTool | internal/exec/explain.go:81-258 | the attempts `why` lists, each with the status its gates give, blocked behind a terminal error; behind them, under an exclusive policy, exactly the declared candidates that were not selected, in order |
| SisterLoops.NothingInstallableAfterTerminal | internal/exec/explain.go:102-232 | behind a terminal error nothing is marked installable |
| SisterLoops.WhyPredictsDryRun | internal/exec/explain.go:102-232 | the dry run ends on the first candidate marked installable exactly when its hook schedule is sound, its prerequisites succeed, no earlier planless candidate comes through and the tool's context lasts that long |
| SisterLoops.WhyReportPredictsDryRun | internal/exec/explain.go:81-258 | the same from the printed report |
| SisterLoops.InstalledReportNeedsTheIndex | internal/exec/explain.go:140-160 | where `why` reports an installed candidate first, the dry run does so exactly when it is also obtainable and the tool's context lasts that long |
| SisterLoops.DryRunChangesNothing | internal/exec/execute.go:257-285 | a dry run leaves the host as it was and announces only candidates of the tool |
| SisterLoops.PreflightTool | internal/exec/batch.go:24-133 | the preflight loop of one tool gives the verdict function's answer, and it is the one the answers of the first candidate not passed over ask for |
| SisterLoops.IdentifyBatchCandidates | internal/exec/batch.go:24-133 | every known tool of the level lands in exactly one of batch, remaining and recorded, as the answers of the candidate its preflight settles on say; a remaining tool has a seed exactly when that candidate was resolved, and it is that candidate's own resolution |
| SisterLoops.BatchRefinesSerial | internal/exec/batch.go:24-133 | a batched tool, candidate and plan is what the serial loop brings to its install phase, with an install transition and nothing prepared, exactly when the tool's context lasts that long |
| SisterLoops.VerdictIsDecided | internal/exec/batch.go:24-133 | read off the answers of the first candidate not passed over: exactly when a tool is batched, recorded, or left to the serial path with a seed, and that the seed is this candidate's own resolution |
| SisterLoops.SeededRunIsTheRun | internal/exec/execute.go:257-285 | a serial run that takes over the preflight's resolution is the run that resolves by itself |
| SisterLoops.EntryIsOwnSeed | internal/exec/run.go:651-684 | the entries of a batch that falls back are such seeds too |
| SisterLoops.RecordedAgreesIffIndexed | internal/exec/batch.go:92-122 | a tool recorded as installed by the batch is so for the serial loop exactly when it is indexed and the tool's context lasts that long |
| SisterLoops.InstalledNotIndexedExample | internal/exec/attempt.go:289-308 | an installed candidate that is no longer indexed, for `why`, the batch and the executor |
| SisterLoops.PlanlessExample | internal/exec/attempt.go:183-210 | a candidate without a plan, for `why`, the lock and the executor |
| SisterLoops.RevisionExample | internal/exec/lock_resolution.go:86-160 | a candidate whose revisions cannot be recorded, for the lock and the executor |
| RemovalSession.RemoveSession.FindOwnedResource | internal/app/remove.go:298-305 | the first record of a resource, if there is one |
| RemovalSession.RemoveSession.ReleaseDependentResources | internal/plan/preparation.go:530-563 | every record loses the tool's claim; exactly the depengine-owned ones that lost their last claim are released |
| RemovalSession.RemoveSession.FinalizeRemovedPrerequisite | internal/app/remove.go:339-357 | the record of a helper removed explicitly goes when nobody claims it |
| RemovalSession.RemoveSession.RemoveTrackedTool | internal/app/remove.go:415-471 | one removal with its recursive collection leaves the session as specified; it ends because the tracked tools get fewer |
| RemovalSession.RemoveSession.CleanupReleasedPrerequisites | internal/app/remove.go:501-561 | the collection loop over released resources |
| RemovalSession.RemoveSession.CleanupOne | internal/app/remove.go:501-561 | one released resource: skipped, finalized, deferred, retained, refused or collected |
| RemovalSession.RemoveSession.RemoveSingleTool | internal/app/remove.go:628-662 | an explicit removal, blocked by dependents that are not scheduled; every departure is justified, the records shed exactly the departed claims, the answer is true exactly when all that was owed succeeded, and then nothing is left behind |
| RemovalSession.RemoveSession.RemoveAllTools | internal/app/remove.go:690-699 | iterating over a state that shrinks is the run of some order that covers every tool; where dependents and helpers are tracked and removers and cleanups succeed, it succeeds in every order, empties the state and leaves no owned helper record |
| RemovalSession.RemoveSession.RemoveArguments | internal/app/remove.go:704-709 | the loop over positional arguments, lawful as a whole; when it succeeds nothing is left behind |
| RemovalLiveness.SingleAnswers | internal/app/remove.go:628-662 | an explicit removal succeeds exactly when the name can be recorded, nobody outside the scheduled removals needs the tool, its target is gone, and every departure on the way cleaned up the sources and collected the helpers it held last |
| RemovalLiveness.NothingLeftBehind | internal/app/remove.go:501-561 | after an explicit removal that succeeds, every owned helper that lost its last claim on the way, chains included, is gone with its record unless it is scheduled or root-requested, and so is the record of every such source |
| RemovalLiveness.RunLeavesNothing | internal/app/remove.go:704-709 | the same for a list of removals, whichever visit took the last claim away |
| RemovalLiveness.RemovalAnswers | internal/app/remove.go:415-471 | the answer of one removal, automatic or not, exactly |
| RemovalLiveness.CollectionAnswers | internal/app/remove.go:501-561 | collecting released resources succeeds exactly when each was collected and every departure on the way did all it owed |
| RemovalSafety.RemovalIsLawful | internal/app/remove.go:415-561 | a tool leaves the state only when its target is gone; automatic removal reaches only helpers that are depengine-owned, unclaimed, not requested and not scheduled; records shed exactly the departed claims |
| RemovalSafety.RemoveAllIsLawful | internal/app/remove.go:690-699 | the same for `remove --all`, and every tool not collected automatically was visited |
| RemovalSafety.RemoveEachIsLawful | internal/app/remove.go:704-709 | the same for a list of arguments |
| RemovalSafety.ClaimedSurvives | internal/plan/preparation.go:530-600 | a record with a surviving claim, or that depengine does not own, is still there with exactly its surviving claims |
| RemovalSafety.RemoveAllIsConfluent | internal/app/remove.go:193-208 | if dependents and owned helpers are tracked and removers and cleanups succeed, every order succeeds, empties the state, leaves no owned helper record, and leaves the same records |
| RemovalSafety.OneVisit | internal/app/remove.go:415-561 | half way through any order the records depend only on which tools are gone |
| RemovalSafety.CollectionDefers | internal/app/remove.go:501-561 | collection removes no tool while every helper is gone already or has its own visit |
| RemovalSafety.UntrackedDependentBlocks | internal/app/remove.go:323-335 | tracking is needed: a helper claimed from outside stays and fails its visit in every order |
| Layers.LayersRegroup | internal/config/manifest.go:118-211 | any consecutive layers may be replaced by their own merge: same tools, defaults, project root and metadata |
| Layers.ToolAssociative | internal/config/manifest.go:314-394 | merging three tools is associative when undeclared fields are empty, method keys unique and overrides tables |
| Layers.MethodsAssociative | internal/config/manifest.go:413-441 | merging method lists is associative, order included |
| Layers.MergeIsCombine | internal/config/manifest.go:413-441 | the index-and-order loop merges key by key and keeps lower methods first, new ones behind, keys unique |
| Layers.MethodAssociative | internal/config/manifest.go:452-546 | merging method configurations is associative |
| Layers.EntryAssociative | internal/config/manifest.go:525-543 | one configuration key merges alike in both groupings except when a non-table override sits between two tables and hides entries |
| Layers.OverrideExample | internal/config/manifest.go:523-543 | a string between two tables of overrides merges differently in the two groupings |
| Layers.UnionAssociative | internal/config/manifest.go:296-308 | appending unseen tags is associative, order included |
| Layers.MergedIsWellFormed | internal/config/manifest.go:314-441 | a merged tool satisfies what associativity needs of a parsed one |
| Layers.BindMergesTools | internal/config/parse.go:276-284 | binding the project root commutes with merging |
| Layers.DefaultsFromAnywhere | internal/config/manifest.go:189-211 | stacked defaults are the declared ones over any start |
| Layers.MostSpecificDeclarationWins | internal/config/manifest.go:335-349 | an overwritten field has the value of the most specific layer that declares it, also when that value is empty |
| LayerPrecedence.MethodInIs | internal/config/manifest.go:443-448 | what is looked up under a key in a parsed layer is the one method of the tool that has the key |
| LayerPrecedence.MostSpecificKeyWins | internal/config/manifest.go:523-543 | a configuration key of a method has the value of the most specific layer whose method sets it |
| LayerPrecedence.MostSpecificOverrideWins | internal/config/manifest.go:525-541 | tables of `pkg_overrides` are merged entry by entry, the most specific layer winning for each |
| LayerPrecedence.MostSpecificFieldWins | internal/config/manifest.go:467-518 | a method field that layers replace as a whole has the value of the most specific layer that declares it, also when that value is empty |
| LayerPrecedence.MostSpecificGuardWins | internal/config/manifest.go:471-481 | the guard is that of the most specific layer that has one or declares that there is none |
| LayerPrecedence.MostSpecificIdentityWins | internal/config/manifest.go:458-465 | identity and locked revision come from the most specific layer that has the method, the project root from the most specific layer of all |
| LayerPrecedence.LeastSpecificRuntimeStays | internal/config/manifest.go:452-456 | what no layer declares stays as the least specific layer gave it |
| LayerPrecedence.MergedComesFrom | internal/config/manifest.go:413-546 | nothing is made up: a merged method, key, override entry or guard comes from some layer |
| LayerPrecedence.MostSpecificConditionWins | internal/config/manifest.go:314-394 | the condition on a requirement is that of the most specific layer that gives one |
| LayerPrecedence.MergedTools | internal/config/manifest.go:150-172 | exactly the tools of the layers, each with exactly the tags that some layer gives it |
| LayerPrecedence.MostSpecificDefaultWins | internal/config/manifest.go:189-211 | a default has the value of the most specific layer that declares it |
| LayerPrecedence.UndeclaredDefaults | internal/config/manifest.go:118-150 | a default no layer declares is the engine's; version, permission for new tools and root are those of the most specific layer |
| LayerMerge.MergeSchemaLayers | internal/config/manifest.go:118-179 | every object of the merged schema, down to nested tables, conditions and marks of presence, is new and belongs to no layer; every layer stands for what it stood for, absent ones are skipped, and the value is the specified merge |
| LayerMerge.StackLayers | internal/config/manifest.go:150-172 | the loop over layers, building defaults, presence and tools out of new objects only |
| LayerMerge.MergeLayerTools | internal/config/manifest.go:155-171 | one layer's tools over the merged ones, in any iteration order; every object is new or was among the merged ones, none of the layer |
| LayerMerge.MergeToolConfigs | internal/config/manifest.go:314-394 | a new tool with the merged value, its own fields, tags, conditions and presence new all the way down; its methods are new or the lower tool's |
| LayerMerge.MergeMethodSlices | internal/config/manifest.go:413-441 | the merged list; a method is new or one of the lower list |
| LayerMerge.MergeMethodConfigs | internal/config/manifest.go:452-546 | a method with the merged value, new all the way down |
| LayerMerge.UnionStringSlice | internal/config/manifest.go:296-308 | the in-place append is the union |
| LayerMerge.CloneTool | internal/config/model.go:123-147 | a copy that shares no object, at any depth, and has the same value |
| LayerMerge.CloneMethods | internal/config/model.go:164-206 | copies of methods, new all the way down, with the same values |
| Trees.CloneAny | internal/config/model.go:259-276 | a copy of a nested value in which every table and list is new, with the same value, whatever the original shares within itself |
| Trees.CloneFields | internal/config/model.go:175-206 | the copies of all fields that hold references |
| LayerMerge.MergeConfigInto | internal/config/manifest.go:523-543 | the upper configuration goes entry by entry into a new copy of the lower one, tables of overrides merged into a new table |
| LayerMerge.AssignField | internal/config/manifest.go:262-287 | a declared field takes a copy of the upper value and a declared nil erases |
| LayerMerge.BindProjectRoot | internal/config/parse.go:276-284 | every method object of the tools gets the root; nothing else is written, and the value is the bound one |
| MethodOrder.SelectMethods | internal/config/method_order.go:21-42 | the in-place extraction is the stable sort by (first matching selector, display name) of all candidates, or of the matching ones when exclusive |
| MethodOrder.Extract | internal/config/method_order.go:29-37 | one selector's candidates leave the remaining slice in order |
| MethodOrder.SortByName | internal/config/method_order.go:22-25 | the stable sort by display name |
| MethodOrder.ExtractionSelects | internal/config/method_order.go:21-42 | gathering rank by rank from the name-sorted candidates is the stable sort |
| MethodOrder.StableSortUnique | internal/config/method_order.go:21-42 | two sorted lists with the same candidates per key in the same order are equal |
| MethodOrder.StableSortIsStable | internal/config/method_order.go:21-42 | the sort is ordered, a permutation, and keeps the order within each key |
| MethodOrder.SelectionKeeps | internal/config/method_order.go:13-19 | a preference loses no fallback; an exclusive policy keeps exactly the matching candidates |
| MethodOrder.SelectorsKeep | internal/config/method_order.go:44-46 | said of the selectors: an exclusive policy keeps exactly what some selector names by kind or by label |
| MethodOrder.SelectorsDecide | internal/config/method_order.go:21-53 | what an earlier selector names comes first; what none tells apart is in the order of the names shown |
| MethodOrder.SelectionIsIdempotent | internal/config/method_order.go:21-42 | selecting twice is selecting once |
| MethodOrder.ParseOrderIsInvisible | internal/config/parse.go:515-522 | ordering at parse time changes no later selection, for any policy, exactly when namesakes already stand in that order |
| MethodOrder.NamesakesExample | internal/config/parse.go:515-522 | two namesakes whose parse-time order a later selection still shows |
| MethodOrder.DistinctNamesHideParseOrder | internal/config/parse.go:515-522 | in particular when display names are distinct |
| MethodOrder.MergeMethodOrder | internal/config/method_order.go:97-113 | the tool's list followed by the default entries it does not name |
| MethodOrder.PreferenceIsAPrefix | internal/config/method_order.go:97-113 | that list selects like the preference followed by all defaults |
| MethodOrder.ExpandMethodOrder | internal/config/method_order.go:66-91 | the manager's name becomes `native`, displacing explicit `native` entries |
| MethodOrder.ExpansionResolves | internal/config/method_order.go:66-91 | after expansion the manager is not named, `native` stands there exactly when either was named, and expanding again changes nothing |
| Specialize.SpecializeDistribution | internal/config/specialize.go:43-82 | unchanged, ineligible, ambiguous, invalid or a specialized copy, as specified |
| Specialize.ApplyDistribution | internal/config/specialize.go:89-135 | the copy has every override, inherits the rest and has nothing left to select |
| Specialize.SpecializedKeyByKey | internal/config/specialize.go:89-135 | key by key, the specialized configuration has the distribution's own field where it gives one and the base's otherwise |
| Specialize.OverlayCommutes | internal/config/specialize.go:145-153 | viewing the specialized configuration is overlaying the base view |
| Specialize.InvalidExactlyWhere | internal/config/specialize.go:43-82 | specialization is invalid exactly on hosts that match one distribution alone whose overlay breaks the rules |
| Specialize.AmbiguousExactlyWhere | internal/config/specialize.go:43-82 | it is ambiguous exactly where two distributions match |
| Specialize.SpecializedStaysPut | internal/config/specialize.go:86-92 | specializing a specialized candidate is a no-op on every host |
| Specialize.AcceptedFailsOnlyByAmbiguity | internal/config/specialize.go:171-246 | an accepted method fails on no host except by ambiguity, and what it specializes to obeys the rules |
| Specialize.ValidateEffectiveIntegrity | internal/config/specialize.go:179-199 | accepts exactly the schemas whose methods and distributions all obey the rules |
| Specialize.ValidateMergedMethodIntegrity | internal/config/specialize.go:204-246 | reports nothing exactly for a method whose base and distributions obey the rules |
| Specialize.ValidateArtifactIntegrityOptions | internal/config/strict.go:365-403 | appends exactly the faults of the combination |
| Specialize.FaultlessIsCoherent | internal/config/strict.go:365-403 | there is no fault exactly when nothing is empty, sidecars ride on an automatic checksum and a key signs a signature |
| Specialize.CheckEffectiveRequires | internal/config/strict.go:487-503 | appends exactly the missing dependencies of configured keys |
| Specialize.FaultlessMeetsContract | internal/config/strict.go:487-503 | there is none exactly when every configured key has its dependencies |
| Placeholders.TwoPhasesAreOne | internal/config/placeholder.go:30-42 | two expansions are one with both maps, for templates with no token inside braces and brace-free facts |
| Placeholders.TwoPhasesAreOneAll | internal/config/placeholder.go:149-168 | the same through nested tables and lists |
| Placeholders.WithheldFactsAreOnePass | internal/config/parse.go:143-164 | withholding architecture and system is one expansion with the method's spellings of them |
| Placeholders.ExpansionIsIdempotent | internal/config/placeholder.go:30-42 | expanding again changes nothing, under the same hypotheses |
| Placeholders.ExpansionLeaves | internal/config/placeholder.go:30-42 | exactly the tokens that the map knows are gone, and no new one is there |
| Placeholders.ExpansionLeavesAll | internal/config/placeholder.go:149-168 | the same at any depth of a configuration |
| Placeholders.TokenNames | internal/config/placeholder.go:21 | what stands between braces is a token exactly when it is a small letter followed by small letters, digits and underscores |
| Placeholders.NestedBracesMakeTokens | internal/config/placeholder.go:21-42 | the hypothesis is needed: a token inside braces whose value is a name makes a new token |
| Placeholders.TokenIsClosed | internal/config/placeholder.go:21 | whether a token starts at a brace is settled by the text up to the first close |
| Placeholders.NoNewToken | internal/config/placeholder.go:30-42 | expansion turns no literal brace of a flat template into a token |
| Closures.FilterTools | internal/app/helpers.go:256-313 | exactly the declared tools reachable from the selected roots, on any graph, the one asked for by name no longer only a dependency |
| Closures.SelectRoots | internal/app/helpers.go:257-286 | the roots are the tools the three filters choose |
| Closures.Drain | internal/app/helpers.go:287-311 | the worklist ends empty with the closure done, whatever repeats or is undeclared |
| Closures.RootTools | internal/exec/execute.go:393-415 | exactly the tools reachable from proper roots over tool requirements |
| Closures.UnfilteredIsIdempotent | internal/app/helpers.go:256-313 | without filters, filtering twice is filtering once |
| Closures.RootClosureIsKept | internal/exec/execute.go:393-415 | the graph of a run is part of what unfiltered filtering keeps |
| LockAssembly.ResolveUniversalLockDocument | internal/app/universal_lock.go:20-94 | succeeds exactly when the closure can be covered; then it covers exactly the expected tools in order, fresh entries shadow previous ones, and only unresolved tools are retained |
| LockAssembly.ResolveFresh | internal/app/universal_lock.go:44-56 | one fresh entry for every tool with methods, or the first without a candidate |
| LockAssembly.Retain | internal/app/universal_lock.go:57-85 | exactly the previous entries of expected, unresolved tools are added, if they are immutable |
| LockAssembly.BuildLockDocument | internal/plan/lock.go:830-860 | all or nothing: distinct tools, immutable entries, name order |
| LockAssembly.VerifyCoverage | internal/plan/lock.go:1018-1048 | accepts exactly a valid expectation that the document covers exactly |
| LockAssembly.CarryForwardIsSafe | internal/app/universal_lock.go:100-127 | only missing checksums change, to one pinned before for an artifact that is otherwise the same |
| LockAssembly.CarryForwardIsComplete | internal/app/universal_lock.go:100-127 | an artifact comes out pinned exactly where it was, or the previous entry of its tool pins one of the same shape; of several the first counts |
| LockAssembly.FreshEntryIs | internal/app/universal_lock.go:44-56 | a fresh entry is the selected candidate with its artifacts pinned in this way |
| LockAssembly.IntentDrifted | internal/app/universal_lock.go:131-155 | a retained tool drifted exactly when its method hash or the hashes under its keys differ |
| LockAssembly.UnchangedSources | internal/app/universal_lock.go:131-155 | a tool that did not drift has the same method hash, and the same hash under each of its own keys |
| LockAssembly.KeyNamesItsTool | internal/app/helpers.go:464-474 | reading the tool off a key inverts writing it, whatever slashes the tool's name holds |
| LockAssembly.CoverageNames | internal/app/universal_lock.go:160-170 | the sorted tools that have methods |
| LockAssembly.UpdateSchema | internal/app/update.go:123-129 | a tool is not resolved afresh exactly when it is outside the profile and has no entry or the same intent |
| LockAssembly.UpdateLock | internal/app/update.go:113-135 | the updated lock covers the closure; an entry is retained only for a tool outside the profile whose methods and sources are unchanged |
| LockAssembly.PartialUpdateNeedsCurrentLock | internal/app/universal_lock.go:173-195 | without a current lock a document exists only if the whole closure is resolved |
| DownloadCache.Directory.Evict | internal/downloadcache/cache.go:57-101 | for some order by age, exactly what the specification drops is gone beside what vanished, nothing else changed, the count is right, and the counted bytes are within the limit exactly when what cannot be removed fits |
| DownloadCache.Directory.Sweep | internal/downloadcache/cache.go:88-99 | the loop's running total decides like the bytes counted as left, with removals that fail or come too late |
| DownloadCache.Directory.Entries | internal/downloadcache/cache.go:71-84 | exactly the finished entries that can be inspected, with their total |
| DownloadCache.IsCacheEntryName | internal/downloadcache/cache.go:191-201 | exactly 64 lower-case hexadecimal digits |
| DownloadCache.WithinLimitExactlyWhere | internal/downloadcache/cache.go:57-101 | the counted bytes end within the limit exactly when the entries that cannot be removed fit |
| DownloadCache.StuckEntryExample | internal/downloadcache/cache.go:57-101 | two entries of which the older cannot be removed: the limit stays exceeded and the entry just stored goes |
| DownloadCache.OldestGoFirst | internal/downloadcache/cache.go:57-101 | no victim is newer than a survivor that could have been deleted |
| DownloadCache.LastVictimWasNeeded | internal/downloadcache/cache.go:57-101 | putting the newest victim back would exceed the limit |
| DownloadCache.NewestGoesOnlyAlone | internal/downloadcache/cache.go:207-244 | what was just stored survives exactly when it cannot be removed or fits beside what cannot; with all removals succeeding it goes exactly when it alone exceeds the limit |
| DownloadCache.NewestSurvives | internal/downloadcache/cache.go:57-101 | the newest entry of a list survives eviction under exactly that condition |
| DownloadCache.Cache.Store | internal/downloadcache/cache.go:207-244 | after a store the clock still runs ahead, survivors are unchanged and the new entry is there under exactly that condition |
| DownloadCache.Cache.Lookup | internal/downloadcache/cache.go:163-189 | a hit makes the entry the newest and touches nothing else |
| Challenge.ParseChallenge | internal/containerregistry/resolver.go:239-276 | the loop over the header gives the specified parse, with its three errors |
| Challenge.ChallengeRoundTrip | internal/containerregistry/resolver.go:239-276 | printing a scheme and key="value" pairs, with any space behind the commas, and parsing gives the scheme and the pairs back, keys in lower case |
| Challenge.AcceptedExactlyWhere | internal/containerregistry/resolver.go:239-276 | a header is accepted, with this scheme and these parameters, exactly when it is spelled so by the grammar: space around, a scheme, a blank, and key="value" pairs with optional space, separated by commas, one more of which may end the list |
| Challenge.ErrorsExactlyWhere | internal/containerregistry/resolver.go:239-248 | which error is reported: no challenge for a blank header, an invalid one without a blank behind the scheme, invalid parameters for every other header not accepted |
| Challenge.TokenIsRejected | internal/containerregistry/resolver.go:249-256 | a token in place of a quoted string is never a value |
| Challenge.TrailingCommaIsAccepted | internal/containerregistry/resolver.go:266-273 | one comma behind the last parameter changes nothing |
| Challenge.TakesPiece | internal/containerregistry/resolver.go:249-266 | the parameter at the front of a list is taken as it is spelled, and the rest is left |
| Challenge.EveryValueIsFound | internal/containerregistry/resolver.go:264 | with distinct keys every printed value is found under its key in lower case |
| NpmVersion.ValidNPMVersion | internal/ecosystem/npm_lock.go:17-36 | accepts exactly the versions of the grammar in items 2, 9 and 10 of Semantic Versioning 2.0.0 |
| NpmVersion.ValidIdentifiers | internal/ecosystem/npm_lock.go:50-75 | accepts exactly non-empty identifiers over the allowed characters, without numeric leading zeroes where they are forbidden |
| NpmVersion.ValidCoreNumber | internal/ecosystem/npm_lock.go:38-48 | accepts exactly numbers without leading zeroes |
| NpmVersion.AcceptedIsSemVer | internal/ecosystem/npm_lock.go:17-36 | the successive splits accept exactly what the grammar generates |
| NpmVersion.OneReading | internal/ecosystem/npm_lock.go:17-36 | a version has one reading |

## Left out

- Replacement of an upgrade target (`replaceCandidate`) and its write-ahead log: an upgrade ends in a `Replacing` status.
- Preparation without a schema path, elevation, per-method timeouts, log and terminal output, credentials beyond their presence.
- LazyProgress.RunsAreFinite: cancellation is one step of the environment; deadlines, the contexts of single workers, and the waits of a tool's body for the state lock or a subprocess are not modelled.
- LazyProgress.NoDeadlock: the sort and slicing of the graph into levels are not modelled; acyclicity of the edges handed to the sorter is the hypothesis. Which tools of a level the requirement check, the security filter and the batch leave to the workers is a choice of the environment.
- LazyRoles.EveryRoleIsTaken: which methods a body goes through and how it ends are choices of the environment, so a given host may never make them; what the batch installs is not sent to the workers.
- Transactions.PreparePrepares: of a journal its status and its applied sources are kept; operations, recovery metadata and the journal's own validation are fixed answers.
- Recovery of interrupted transactions at the next start, and writing the state file itself.
- RemovalSession.RemoveSession.RemoveSingleTool: the dry-run rendering of a removal (`planDryRunRemoval`) and confirmation are left out; adapters, observation, removers and source cleanup are fixed answers per tool.
- LayerMerge.MergeSchemaLayers: the map of tools and the slice of method pointers are fields of their owner; conditions, hooks, sources and distributions are tables and lists below their field. Provenance is left out.
- LayerMerge.CloneMethods: a nil and an empty list are not told apart.
- SisterLoops.BatchRefinesSerial: that native candidates carry no distributions is a hypothesis; every parse refuses them (internal/methodkind/methodkind.go:415, internal/config/strict.go:546-553).
- Attempts.CandidateAttempt.GateAlreadyInstalled: the seed of an explicit upgrade (`requireUpgrade`) belongs to the upgrade path, which is left out.
- Attempts.TryMethods: takes no resolution over from the batch; `SisterLoops.SeededRunIsTheRun` proves that taking it over changes nothing.
- Attempts.CandidateAttempt.InstallCandidate: an upgrade ends in a `Replacing` status; so do the replacement records of the final save.
- ForgottenTransactions.AttemptOnHeldLock: another worker's or process's hold on the state lock is a wait that ends and is left out, and so is a lock file that the runtime closes when it collects a dropped transaction.
- Strings.TrimSpace: trims ASCII space only; the program also trims Unicode space.
- Strings.Lower: lower-cases ASCII letters only; so does the profile comparison `Closures.EqualFold`, where the program folds Unicode.
- MethodOrder.SortByName: the library's sort is replaced by an insertion sort with the same contract; expansion of bucket names and the choice between policies (`EffectiveMethodOrder`) only compose what is proved.
- DownloadCache.Directory.Evict: sizes are unbounded, the program adds 64-bit integers; the sort by age is a contract that any order of ties meets; what another process removes vanishes before the sweep begins.
- DownloadCache.Cache.Store: failing renames, copies and permissions, and symbolic links under the stored key; every entry can be inspected.
- LockAssembly.ResolveUniversalLockDocument: projecting a plan to an entry keeps tool, candidate, identity and artifacts; which identities are immutable is a fixed answer.
- Specialize.SpecializeDistribution: conditions are arbitrary predicates on host facts; entrypoint targets and assets are carried, not checked.
- Requirement conditions (`EffectiveRequires`), aliases of architectures, and field-by-field parsing: each settled by reading it.
- Adapters, lock file formats, status, diff and SBOM rendering.
