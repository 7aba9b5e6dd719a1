/**
 The attempt pipeline of one method candidate, as functions: what each phase answers, and what it
 leaves behind. `Attempts.dfy` has the phases as they run, step by step.
 */
module Pipeline {
  import opened Basics
  import opened Candidates

  // ----- reporting -----

  function Skip(c: Candidate, x: Attempt, status: AttemptStatus): Attempt {
    x.(result := x.result.(attempts := x.result.attempts + [MethodAttempt(c.id, status)]))
  }

  function Ended(c: Candidate, x: Attempt, status: ToolStatus, reason: Reason): Attempt {
    x.(result := x.result.(status := status, candidate := Some(c.id), reason := reason))
  }

  function Fail(c: Candidate, x: Attempt, reason: Reason): Attempt {
    Ended(c, Skip(c, x, FailedAttempt), Failed, reason)
  }

  // ----- the preparation transaction -----

  function Close(x: Attempt): Attempt {
    if x.tx.NoTx? then x else x.(tx := Closed, host := x.host.(locked := x.host.locked && x.tx != Open))
  }

  function WithJournal(c: Candidate, x: Attempt, journal: Journal): Attempt {
    x.(host := x.host.(journals := x.host.journals[c.id := journal]))
  }

  function WithoutJournal(c: Candidate, x: Attempt): Attempt {
    x.(host := x.host.(journals := x.host.journals - {c.id}))
  }

  function WithSources(x: Attempt, sources: set<Source>): Attempt {
    x.(host := x.host.(sources := sources))
  }

  /** Removes one applied source; false when the outcome is not a confirmed removal. */
  function UndoOne(c: Candidate, x: Attempt, source: Source): (Attempt, bool) {
    if SaveUndo(source) in c.faults then (x, false)
    else if RemoveFails(source) in c.faults then
      var gone := RemoveSticks(source) !in c.faults;
      var x' := if gone then WithSources(x, x.host.sources - {source}) else x;
      (x', gone && UndoProbeFails(source) !in c.faults && SaveUndoResolve(source) !in c.faults)
    else
      (WithSources(x, x.host.sources - {source}), SaveUndoConfirm(source) !in c.faults)
  }

  /** Undoes the applied sources from the last one to the first; a source that another tool
      claims stays. */
  function UndoAll(c: Candidate, x: Attempt, applied: seq<Source>): (Attempt, bool)
    decreases |applied|
  {
    if applied == [] then (x, true)
    else
      var last, before := applied[|applied| - 1], applied[..|applied| - 1];
      if last in x.host.claimed then UndoAll(c, x, before)
      else
        var (x', ok) := UndoOne(c, x, last);
        if ok then UndoAll(c, x', before) else (x', false)
  }

  function Rollback(c: Candidate, x: Attempt): (Attempt, bool) {
    match x.tx
    case NoTx => (x, true)
    case Closed => (x, true)
    case Suspended =>
      if NoRollbackLock in c.faults then (x, false)
      else RollbackOpen(c, x.(tx := Open, host := x.host.(locked := true)))
    case Open => RollbackOpen(c, x)
  }

  function RollbackOpen(c: Candidate, x: Attempt): (Attempt, bool) {
    if c.id !in x.host.journals then (Close(x), false)
    else
      var journal := x.host.journals[c.id];
      if journal.status in {Applying, Committing, RollingBack} || SavePlanRollback in c.faults then
        (Close(x), false)
      else
        var (x', ok) := UndoAll(c, WithJournal(c, x, journal.(status := RollingBack)), journal.applied);
        if !ok || SaveRollback in c.faults then (Close(x'), false)
        else (Close(WithoutJournal(c, x')), CloseFails !in c.faults)
  }

  datatype Preparation = PreparationDone | PreparationFailed(blocked: bool)

  function AfterApplied(c: Candidate, x: Attempt, applied: seq<Source>): Attempt {
    WithJournal(c, x, Journal(if |applied| == |x.missing| then Prepared else Preparing, applied))
  }

  /** A failed addition is probed: if the outcome is known, the preparation is rolled back. */
  function SettleFailedAdd(c: Candidate, x: Attempt, source: Source, done: seq<Source>): (Attempt, Preparation) {
    var sticks := AddSticks(source) in c.faults;
    var added := if sticks then WithSources(x, x.host.sources + {source}) else x;
    if ProbeFails(source) in c.faults || SaveResolve(source) in c.faults then
      (Close(added), PreparationFailed(true))
    else
      var settled := if sticks then AfterApplied(c, added, done + [source])
                     else WithJournal(c, added, Journal(if done == [] then Pending else Preparing, done));
      var (x', ok) := Rollback(c, settled);
      (x', PreparationFailed(!ok))
  }

  /** Adds `missing[i]` under its own write-ahead record. */
  function AddOne(c: Candidate, x: Attempt, i: nat): (Attempt, Preparation)
    requires i < |x.missing|
  {
    var source, done := x.missing[i], x.missing[..i];
    if SavePlan(source) in c.faults then (Close(x), PreparationFailed(true))
    else
      var applying := WithJournal(c, x, Journal(Applying, done));
      if AddFails(source) in c.faults then SettleFailedAdd(c, applying, source, done)
      else
        var added := WithSources(applying, applying.host.sources + {source});
        if SaveConfirm(source) in c.faults then (Close(added), PreparationFailed(true))
        else (AfterApplied(c, added, done + [source]), PreparationDone)
  }

  function AddAll(c: Candidate, x: Attempt, i: nat): (Attempt, Preparation)
    requires i <= |x.missing|
    decreases |x.missing| - i
  {
    if i == |x.missing| then (x, PreparationDone)
    else
      var (x', outcome) := AddOne(c, x, i);
      if outcome.PreparationDone? && x'.missing == x.missing then AddAll(c, x', i + 1) else (x', outcome)
  }

  /** Materializes the missing sources under a journal. A failure hands no transaction back. Taking
      the state lock while an earlier attempt of this process holds it is a wait for the end of the
      context. */
  function Prepare(cfg: Config, c: Candidate, x: Attempt, required: bool): (Attempt, Preparation) {
    if cfg.dryRun || (x.missing == [] && !cfg.prerequisite && !required) then (x, PreparationDone)
    else if NoSecret in c.faults || NoLock in c.faults then (x, PreparationFailed(false))
    else if x.host.locked then (x.(expired := true), PreparationFailed(false))
    else if SaveBegin in c.faults || c.id in x.host.journals then (x, PreparationFailed(false))
    else
      var begun := WithJournal(c, x.(tx := Open, host := x.host.(locked := true)), Journal(Pending, []));
      var (x', outcome) := AddAll(c, begun, 0);
      (if outcome.PreparationDone? then x' else x'.(tx := NoTx), outcome)
  }

  // ----- the phases -----

  function GateStaticIntent(c: Candidate, x: Attempt): (Outcome, Attempt) {
    if c.mismatch then (NextMethod, Skip(c, x, SkipCapability))
    else if !c.whenMatches then (NextMethod, Skip(c, x, SkipWhen))
    else
      match c.distributions
      case Invalid => (FinishTool, Fail(c, x, Plain))
      case NoneMatches => (NextMethod, Skip(c, x, SkipNoDistribution))
      case Materialized(mismatch) => if mismatch then (NextMethod, Skip(c, x, SkipCapability)) else (Proceed, x)
      case Ordinary => (Proceed, x)
  }

  function GateAdapterAvailable(c: Candidate, x: Attempt): (Outcome, Attempt) {
    if c.adapter.Ready? then (Proceed, x) else (NextMethod, Skip(c, x, SkipUnavailable))
  }

  function ResolveConcretePlan(c: Candidate, x: Attempt): (Outcome, Attempt) {
    ResolveFrom(c, x, c.resolution)
  }

  /** The same with a resolution at hand, the candidate's own or one made before. */
  function ResolveFrom(c: Candidate, x: Attempt, resolution: Resolution): (Outcome, Attempt) {
    match resolution
    case Unresolved(terminal) =>
      if terminal then (FinishTool, Fail(c, x, Plain)) else (NextMethod, Skip(c, x, FailedAttempt))
    case _ =>
      var x' := x.(resolved := if resolution.Resolved? then Some(resolution.plan) else None);
      if c.hostCompatible then (Proceed, x') else (NextMethod, Skip(c, x', SkipUnavailable))
  }

  function ProbeSourceAvailability(c: Candidate, x: Attempt): (Outcome, Attempt) {
    if !c.probe.Declared? then (NextMethod, Skip(c, x, FailedAttempt))
    else
      var missing := MissingFrom(c.probe.sources, x.host.sources);
      var x' := x.(missing := missing, deferred := missing != []);
      if missing == [] && !c.indexed then (NextMethod, Skip(c, x', SkipUnavailable)) else (Proceed, x')
  }

  function PrepareMissingSources(cfg: Config, c: Candidate, x: Attempt): (Outcome, Attempt) {
    var (x1, prepared) := Prepare(cfg, c, x, false);
    if prepared.PreparationDone? then (Proceed, x1)
    else
      var x2 := Skip(c, x1, FailedAttempt);
      if prepared.blocked then (FinishTool, Ended(c, x2, Failed, Plain)) else (NextMethod, x2)
  }

  function RecheckPostPrepareAvailability(cfg: Config, c: Candidate, x: Attempt): (Outcome, Attempt) {
    if x.deferred && !cfg.dryRun && !c.indexedAfterPrepare then
      var (x', ok) := Rollback(c, x);
      if ok then (NextMethod, Skip(c, x', SkipUnavailable)) else (FinishTool, Fail(c, x', RollbackFailed))
    else (Proceed, x)
  }

  function SelectCandidate(cfg: Config, c: Candidate, x: Attempt): (Outcome, Attempt) {
    var (o1, x1) := ProbeSourceAvailability(c, x);
    if !o1.Proceed? then (o1, x1) else
    var (o2, x2) := PrepareMissingSources(cfg, c, x1);
    if !o2.Proceed? then (o2, x2) else
    RecheckPostPrepareAvailability(cfg, c, x2)
  }

  function GateAlreadyInstalled(c: Candidate, x: Attempt): (Outcome, Attempt) {
    if x.resolved.None? then (Proceed, x)
    else
      match c.verification
      case VerifyError => (NextMethod, Skip(c, x, FailedAttempt))
      case Verified(state) =>
        match state
        case Satisfied =>
          var (x', ok) := Rollback(c, x);
          (FinishTool, if ok then Ended(c, x', Already, NoReason) else Fail(c, x', RollbackFailed))
        case Absent => (Proceed, x.(transition := Install))
        case Drifted => (Proceed, x.(transition := Upgrade))
        case _ => (NextMethod, Skip(c, x, FailedAttempt))
  }

  function RunCandidatePreinstall(cfg: Config, c: Candidate, x: Attempt): (Outcome, Attempt) {
    var hooks := if x.resolved.None? then NoHooks else x.resolved.value.Before(x.transition);
    var x1 := x.(preHookRan := hooks.Runs? && !cfg.dryRun);
    if hooks.Malformed? || (hooks.Aborts? && !cfg.dryRun) then
      var (x2, ok) := Rollback(c, x1);
      (FinishTool, Fail(c, x2, if ok then Plain else RollbackFailed))
    else (Proceed, x1)
  }

  /** Undo the preparation and try the next method; a failed undo ends the tool. */
  function FallBack(c: Candidate, x: Attempt): (Outcome, Attempt) {
    var (x', ok) := Rollback(c, x);
    if ok then (NextMethod, Skip(c, x', FailedAttempt)) else (FinishTool, Fail(c, x', RollbackFailed))
  }

  /** Gives the state lock up while the prerequisites run and takes it back; false on any error. */
  function RunPrerequisites(c: Candidate, x: Attempt): (Attempt, bool) {
    var met := !c.needs || c.needsMet;
    if x.tx.Open? then
      if SuspendFails in c.faults then (x, false)
      else if ResumeFails in c.faults then (x.(tx := Suspended, host := x.host.(locked := false)), false)
      else (x, met)
    else (x, met)
  }

  function RequireMethodPrerequisites(cfg: Config, c: Candidate, x: Attempt): (Outcome, Attempt) {
    var (x1, met) := RunPrerequisites(c, x);
    var (x2, ok) :=
      if met && c.needs && x1.tx.NoTx? then
        var (x', prepared) := Prepare(cfg, c, x1, true); (x', prepared.PreparationDone?)
      else (x1, met);
    if ok then (Proceed, x2) else FallBack(c, x2)
  }

  /** The resources a commit claims: the declared sources and the real prerequisites. */
  predicate ClaimsResources(c: Candidate) {
    DeclaredSources(c) != [] || (c.needs && c.claimsNeeds)
  }

  function LeaveUnresolved(c: Candidate, x: Attempt): (Outcome, Attempt) {
    (FinishTool, Fail(c, Close(x), BoundaryUnresolved))
  }

  function FinishInstalled(c: Candidate, x: Attempt): (Outcome, Attempt) {
    var x1 := Ended(c, x, Installed, NoReason);
    if x1.tx.NoTx? then (FinishTool, AfterHooks(c, x1))
    else if SaveFinal in c.faults then
      (FinishTool, Ended(c, Close(x1), Failed, NotFinalized))
    else
      var x2 := Close(WithoutJournal(c, x1.(host := x1.host.(recorded := true))));
      (FinishTool, if CloseFails in c.faults then Ended(c, x2, Failed, Plain) else AfterHooks(c, x2))
  }

  function AfterHooks(c: Candidate, x: Attempt): Attempt {
    if PostHookFails in c.faults then Ended(c, x, Failed, Plain) else x
  }

  function InstallCandidate(cfg: Config, c: Candidate, x: Attempt): (Outcome, Attempt) {
    if cfg.dryRun then (FinishTool, Ended(c, Skip(c, x, Success), WouldInstall, NoReason))
    else if !c.credentials then FallBack(c, x)
    else if x.transition.Upgrade? then (FinishTool, Ended(c, x, Replacing, NoReason))
    else if !x.tx.NoTx? && (!x.tx.Open? || SaveCommit in c.faults || !ReadyToCommit(c, x)) then
      var (x', ok) := Rollback(c, x);
      (FinishTool, Fail(c, x', if ok then Plain else RollbackFailed))
    else
      RunInstaller(cfg, c, if x.tx.NoTx? then x
                           else WithJournal(c, x, x.host.journals[c.id].(status := Committing)))
  }

  /** The install itself, behind the commit boundary if there is a transaction. */
  function RunInstaller(cfg: Config, c: Candidate, x: Attempt): (Outcome, Attempt) {
    match c.installer
    case Installs(after) =>
      if after == Verified(Satisfied) then FinishInstalled(c, x)
      else if x.tx.NoTx? then (FinishTool, Fail(c, x, Plain))
      else LeaveUnresolved(c, x)
    case InstallError(terminal) =>
      if x.tx.NoTx? then (if terminal then (FinishTool, Fail(c, x, Plain)) else FallBack(c, x))
      else if terminal then LeaveUnresolved(c, x)
      else Reconcile(cfg, c, x)
  }

  predicate ReadyToCommit(c: Candidate, x: Attempt) {
    && c.id in x.host.journals
    && (x.host.journals[c.id].status.Prepared? || (x.host.journals[c.id].status.Pending? && x.missing == []))
  }

  /** After a failed install behind a commit boundary. Only a preparation that added no source
      and claims something is observed again, and only for a candidate with a planned intent. */
  function Reconcile(cfg: Config, c: Candidate, x: Attempt): (Outcome, Attempt) {
    if cfg.prerequisite || x.missing != [] || !ClaimsResources(c) || c.resolution.NoPlan? || NoRecovery in c.faults then
      LeaveUnresolved(c, x)
    else
      match c.observation
      case Matching => FinishInstalled(c, x)
      case Uncertain => LeaveUnresolved(c, x)
      case Missing =>
        if SaveNotApplied in c.faults || c.id !in x.host.journals then LeaveUnresolved(c, x)
        else FallBack(c, WithJournal(c, x, x.host.journals[c.id].(status := Prepared)))
  }

  // ----- one candidate, all candidates -----

  /** The phases that decide whether a candidate is selected. */
  function Selected(cfg: Config, c: Candidate, x: Attempt): (Outcome, Attempt) {
    var (o1, x1) := GateStaticIntent(c, x);
    if !o1.Proceed? then (o1, x1) else
    var (o2, x2) := GateAdapterAvailable(c, x1);
    if !o2.Proceed? then (o2, x2) else
    var (o3, x3) := ResolveConcretePlan(c, x2);
    if !o3.Proceed? then (o3, x3) else
    SelectCandidate(cfg, c, x3)
  }

  /** The phases that mutate: hooks, prerequisites, install. */
  function Mutating(cfg: Config, c: Candidate, x: Attempt): (Outcome, Attempt) {
    var (o1, x1) := RunCandidatePreinstall(cfg, c, x);
    if !o1.Proceed? then (o1, x1) else
    var (o2, x2) := RequireMethodPrerequisites(cfg, c, x1);
    if !o2.Proceed? then (o2, x2) else
    InstallCandidate(cfg, c, x2)
  }

  /** One candidate through all phases. */
  function AttemptMethod(cfg: Config, c: Candidate, host: Host, result: ToolResult): (Outcome, Attempt) {
    var (o1, x1) := Selected(cfg, c, Fresh(host, result));
    if !o1.Proceed? then (o1, x1) else
    var (o2, x2) := GateAlreadyInstalled(c, x1);
    if !o2.Proceed? then (o2, x2) else
    Mutating(cfg, c, x2)
  }

  /** The verdict once every candidate is spent. */
  function Exhausted(result: ToolResult): ToolResult {
    var status :=
      if exists a <- result.attempts :: a.status.FailedAttempt? then Failed
      else if exists a <- result.attempts :: !a.status.SkipWhen? then SkippedUnavailable
      else SkippedWhen;
    result.(
      status := status,
      candidate := if result.attempts == [] then result.candidate
                   else Some(result.attempts[|result.attempts| - 1].candidate))
  }

  /** The context of the tool is done once this candidate was attempted. */
  predicate Expires(c: Candidate, x: Attempt) {
    x.expired || ContextEnds in c.faults
  }

  function ContextFailed(result: ToolResult): ToolResult {
    result.(status := Failed, reason := ContextEnded)
  }

  /** All candidates in order. Once the context is done no further one is attempted. */
  function TryMethods(cfg: Config, cs: seq<Candidate>, host: Host, result: ToolResult): (Host, ToolResult) {
    if cs == [] then (host, Exhausted(result))
    else
      var (out, x) := AttemptMethod(cfg, cs[0], host, result);
      if out.FinishTool? then
        (x.host, if x.result.status.Failed? && Expires(cs[0], x) then ContextFailed(x.result) else x.result)
      else if Expires(cs[0], x) then (x.host, ContextFailed(x.result))
      else TryMethods(cfg, cs[1..], x.host, x.result)
  }

  const NoResult := ToolResult(Undecided, None, NoReason, [])
}
