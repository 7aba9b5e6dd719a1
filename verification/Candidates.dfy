/**
 The method candidates of one tool, the fixed answers the outside world gives about them, and
 the durable state one attempt may touch.
 */
module Candidates {
  import opened Basics

  type Source = string

  // ----- answers -----

  datatype VerificationState = Satisfied | Absent | Drifted | Unknown | Broken

  /** What observing the resolved target says: an error, or a reconciled state. */
  datatype Verification = VerifyError | Verified(state: VerificationState)

  /** The before-hooks scheduled for one transition: none; some, but every condition is false;
      some that run; one that aborts when run; a schedule that cannot be computed. */
  datatype Hooks = NoHooks | Idle | Runs | Aborts | Malformed

  datatype Transition = NoTransition | Install | Upgrade

  datatype Plan = Plan(package: string, installHooks: Hooks, upgradeHooks: Hooks) {
    function Before(transition: Transition): Hooks {
      match transition
      case Install => installHooks
      case Upgrade => upgradeHooks
      case NoTransition => NoHooks
    }
  }

  /** `NoPlan` is a candidate whose kind is not registered and that carries no hooks: planning
      succeeds without a plan. */
  datatype Resolution = NoPlan | Unresolved(terminal: bool) | Resolved(plan: Plan)

  /** Specialization to this host. `Materialized` is one distribution made concrete; it says whether
      that candidate misses a capability. */
  datatype Distributions = Ordinary | Materialized(mismatch: bool) | NoneMatches | Invalid

  datatype Adapter = Unregistered | Unavailable | Ready

  /** The declared sources of a candidate: in conflict with the locked plan, not observable, or
      listed. */
  datatype SourceProbe = Conflict | Unprobed | Declared(sources: seq<Source>)

  datatype Installer = Installs(after: Verification) | InstallError(terminal: bool)

  /** The observation made after a failed install: the target matches the desired identity, is
      absent, or neither is certain. */
  datatype Observation = Matching | Missing | Uncertain

  /** Places where the state file, the state lock or the package manager may fail. `ContextEnds`: the
      tool is cancelled, or its timeout passes, while the candidate is attempted. */
  datatype Fault =
    | NoSecret | NoLock | SaveBegin
    | SavePlan(source: Source) | AddFails(source: Source) | AddSticks(source: Source)
    | ProbeFails(source: Source) | SaveResolve(source: Source) | SaveConfirm(source: Source)
    | SuspendFails | ResumeFails | NoRollbackLock | SavePlanRollback
    | SaveUndo(source: Source) | RemoveFails(source: Source) | RemoveSticks(source: Source)
    | UndoProbeFails(source: Source) | SaveUndoResolve(source: Source) | SaveUndoConfirm(source: Source)
    | SaveRollback | SaveCommit | NoRecovery | SaveNotApplied | SaveFinal | CloseFails | PostHookFails
    | ContextEnds

  /** One method candidate with every answer about it. `id` is the identity of the candidate. */
  datatype Candidate = Candidate(
    id: nat, native: bool,
    mismatch: bool, whenMatches: bool, distributions: Distributions,
    adapter: Adapter, resolution: Resolution, hostCompatible: bool,
    probe: SourceProbe, indexed: bool, indexedAfterPrepare: bool, revisionsApply: bool,
    verification: Verification,
    needs: bool, needsMet: bool, claimsNeeds: bool,
    credentials: bool, installer: Installer, observation: Observation,
    faults: set<Fault>)

  datatype Config = Config(dryRun: bool, prerequisite: bool, batchCapable: bool)

  // ----- durable state -----

  datatype JournalStatus = Pending | Applying | Preparing | Prepared | Committing | RollingBack

  datatype Journal = Journal(status: JournalStatus, applied: seq<Source>)

  /** The host and the state file: the sources present, those other tools still claim, whether
      this process holds the state lock, the journals on file, and whether the tool was
      recorded. */
  datatype Host = Host(sources: set<Source>, claimed: set<Source>, locked: bool, journals: map<nat, Journal>,
                       recorded: bool)

  // ----- results -----

  datatype AttemptStatus = SkipCapability | SkipWhen | SkipNoDistribution | SkipUnavailable | FailedAttempt | Success

  datatype MethodAttempt = MethodAttempt(candidate: nat, status: AttemptStatus)

  datatype ToolStatus = Undecided | Installed | Already | WouldInstall | Failed | SkippedWhen | SkippedUnavailable
                        | Replacing

  datatype Reason = NoReason | Plain | RollbackFailed | BoundaryUnresolved | NotFinalized | ContextEnded

  datatype ToolResult = ToolResult(status: ToolStatus, candidate: Option<nat>, reason: Reason,
                                   attempts: seq<MethodAttempt>)

  datatype Outcome = Proceed | NextMethod | FinishTool

  /** `tx` of one attempt: none, open with the state lock held, open with the lock given up for
      the prerequisites, or closed. */
  datatype Tx = NoTx | Open | Suspended | Closed

  /** Everything one attempt reads and writes. `expired`: it waited for a lock that this process
      holds itself, and so until the context of the tool ended. */
  datatype Attempt = Attempt(
    host: Host, result: ToolResult,
    resolved: Option<Plan>, deferred: bool, missing: seq<Source>, tx: Tx,
    transition: Transition, preHookRan: bool, expired: bool)

  function Fresh(host: Host, result: ToolResult): Attempt {
    Attempt(host, result, None, false, [], NoTx, NoTransition, false, false)
  }

  function DeclaredSources(c: Candidate): seq<Source> {
    if c.probe.Declared? then c.probe.sources else []
  }

  /** The declared sources that the host does not have, in order. */
  function MissingFrom(sources: seq<Source>, present: set<Source>): (missing: seq<Source>)
    ensures forall s :: s in missing <==> s in sources && s !in present
  {
    if sources == [] then []
    else (if sources[0] in present then [] else [sources[0]]) + MissingFrom(sources[1..], present)
  }
}
