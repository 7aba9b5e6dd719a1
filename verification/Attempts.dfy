/**
 The attempt pipeline as it runs: the phase methods update the fields of one candidate's attempt,
 append to the report of the tool, and act on the host. Every method is tied to the function of
 `Pipeline` that says what it leaves behind, so that what is proved of whole runs holds of them.
 */
module Attempts {
  import opened Basics
  import opened Candidates
  import opened Pipeline
  import opened CommitBoundary

  /** The host and the state file. */
  class Machine {
    const claimed: set<Source>
    var sources: set<Source>
    var locked: bool
    var journals: map<nat, Journal>
    var recorded: bool

    constructor (host: Host)
      ensures Snapshot() == host
    {
      claimed, sources, locked := host.claimed, host.sources, host.locked;
      journals, recorded := host.journals, host.recorded;
    }

    ghost function Snapshot(): Host
      reads this
    {
      Host(sources, claimed, locked, journals, recorded)
    }
  }

  /** The result of one tool under way. */
  class Report {
    var status: ToolStatus
    var candidate: Option<nat>
    var reason: Reason
    var attempts: seq<MethodAttempt>

    constructor ()
      ensures Snapshot() == NoResult
    {
      status, candidate, reason, attempts := Undecided, None, NoReason, [];
    }

    ghost function Snapshot(): ToolResult
      reads this
    {
      ToolResult(status, candidate, reason, attempts)
    }

    method RecordContextFailure()
      modifies this
      ensures Snapshot() == ContextFailed(old(Snapshot()))
    {
      status, reason := Failed, ContextEnded;
    }

    /** The verdict once every candidate is spent. */
    method FinishExhausted()
      modifies this
      ensures Snapshot() == Exhausted(old(Snapshot()))
    {
      status := SkippedWhen;
      for i := 0 to |attempts|
        invariant candidate == old(candidate) && reason == old(reason) && attempts == old(attempts)
        invariant forall a <- attempts[..i] :: !a.status.FailedAttempt?
        invariant status == if exists a <- attempts[..i] :: !a.status.SkipWhen? then SkippedUnavailable else SkippedWhen
      {
        assert attempts[..i + 1] == attempts[..i] + [attempts[i]];
        if attempts[i].status.FailedAttempt? {
          status := Failed;
          break;
        }
        if !attempts[i].status.SkipWhen? {
          status := SkippedUnavailable;
        }
      }
      assert attempts[..|attempts|] == attempts;
      if |attempts| > 0 {
        candidate := Some(attempts[|attempts| - 1].candidate);
      }
    }
  }

  class CandidateAttempt {
    const cfg: Config
    const c: Candidate
    const machine: Machine
    const report: Report
    var resolved: Option<Plan>
    var deferred: bool
    var missing: seq<Source>
    var tx: Tx
    var transition: Transition
    var preHookRan: bool
    var expired: bool

    constructor (cfg: Config, c: Candidate, machine: Machine, report: Report)
      ensures this.cfg == cfg && this.c == c && this.machine == machine && this.report == report
      ensures Snapshot() == Fresh(machine.Snapshot(), report.Snapshot())
    {
      this.cfg, this.c, this.machine, this.report := cfg, c, machine, report;
      resolved, deferred, missing, tx, transition := None, false, [], NoTx, NoTransition;
      preHookRan, expired := false, false;
    }

    ghost function Snapshot(): Attempt
      reads this, machine, report
    {
      Attempt(machine.Snapshot(), report.Snapshot(), resolved, deferred, missing, tx, transition, preHookRan, expired)
    }

    // ----- reporting -----

    method SkipCandidate(status: AttemptStatus)
      modifies report
      ensures Snapshot() == Skip(c, old(Snapshot()), status)
    {
      report.attempts := report.attempts + [MethodAttempt(c.id, status)];
    }

    method End(status: ToolStatus, reason: Reason)
      modifies report
      ensures Snapshot() == Ended(c, old(Snapshot()), status, reason)
    {
      report.status, report.candidate, report.reason := status, Some(c.id), reason;
    }

    method FailCandidate(reason: Reason)
      modifies report
      ensures Snapshot() == Fail(c, old(Snapshot()), reason)
    {
      SkipCandidate(FailedAttempt);
      End(Failed, reason);
    }

    // ----- the preparation transaction -----

    method CloseTransaction()
      modifies this, machine
      ensures Snapshot() == Close(old(Snapshot()))
    {
      if !tx.NoTx? {
        if tx.Open? {
          machine.locked := false;
        }
        tx := Closed;
      }
    }

    method WriteJournal(journal: Journal)
      modifies machine
      ensures Snapshot() == WithJournal(c, old(Snapshot()), journal)
    {
      machine.journals := machine.journals[c.id := journal];
    }

    /** Removes one applied source under its write-ahead record. */
    method RemoveSource(source: Source) returns (ok: bool)
      modifies machine
      ensures (Snapshot(), ok) == UndoOne(c, old(Snapshot()), source)
    {
      if SaveUndo(source) in c.faults {
        return false;
      }
      if RemoveFails(source) in c.faults {
        var present := RemoveSticks(source) in c.faults;
        if !present {
          machine.sources := machine.sources - {source};
        }
        if UndoProbeFails(source) in c.faults || SaveUndoResolve(source) in c.faults {
          return false;
        }
        return !present;
      }
      machine.sources := machine.sources - {source};
      return SaveUndoConfirm(source) !in c.faults;
    }

    method ApplyRollback(applied: seq<Source>) returns (ok: bool)
      modifies machine
      ensures (Snapshot(), ok) == UndoAll(c, old(Snapshot()), applied)
    {
      var i := |applied|;
      assert applied[..i] == applied;
      while i > 0
        invariant 0 <= i <= |applied|
        invariant UndoAll(c, old(Snapshot()), applied) == UndoAll(c, Snapshot(), applied[..i])
        decreases i
      {
        assert applied[..i][|applied[..i]| - 1] == applied[i - 1];
        assert applied[..i][..i - 1] == applied[..i - 1];
        i := i - 1;
        if applied[i] !in machine.claimed {
          var removed := RemoveSource(applied[i]);
          if !removed {
            return false;
          }
        }
      }
      return true;
    }

    method RollBack() returns (ok: bool)
      modifies this, machine
      ensures (Snapshot(), ok) == Rollback(c, old(Snapshot()))
      ensures missing == old(missing)
    {
      if tx.NoTx? || tx.Closed? {
        return true;
      }
      if tx.Suspended? {
        if NoRollbackLock in c.faults {
          return false;
        }
        tx := Open;
        machine.locked := true;
      }
      ok := RollBackJournal();
    }

    method RollBackJournal() returns (ok: bool)
      requires tx.Open?
      modifies this, machine
      ensures (Snapshot(), ok) == RollbackOpen(c, old(Snapshot()))
      ensures missing == old(missing)
    {
      if c.id !in machine.journals {
        CloseTransaction();
        return false;
      }
      var journal := machine.journals[c.id];
      if journal.status in {Applying, Committing, RollingBack} || SavePlanRollback in c.faults {
        CloseTransaction();
        return false;
      }
      WriteJournal(journal.(status := RollingBack));
      var undone := ApplyRollback(journal.applied);
      if !undone || SaveRollback in c.faults {
        CloseTransaction();
        return false;
      }
      machine.journals := machine.journals - {c.id};
      CloseTransaction();
      return CloseFails !in c.faults;
    }

    /** A failed addition is probed; if its outcome is known, the preparation is rolled back. */
    method SettleAdd(source: Source, done: seq<Source>) returns (outcome: Preparation)
      modifies this, machine
      ensures (Snapshot(), outcome) == SettleFailedAdd(c, old(Snapshot()), source, done)
      ensures missing == old(missing)
    {
      hide Rollback;
      var present := AddSticks(source) in c.faults;
      if present {
        machine.sources := machine.sources + {source};
      }
      if ProbeFails(source) in c.faults || SaveResolve(source) in c.faults {
        CloseTransaction();
        return PreparationFailed(true);
      }
      if present {
        WriteApplied(done + [source]);
      } else {
        WriteJournal(Journal(if done == [] then JournalStatus.Pending else Preparing, done));
      }
      var ok := RollBack();
      return PreparationFailed(!ok);
    }

    /** Adds `missing[i]` under its write-ahead record. */
    method AddSource(i: nat) returns (outcome: Preparation)
      requires i < |missing|
      modifies this, machine
      ensures (Snapshot(), outcome) == AddOne(c, old(Snapshot()), i)
      ensures missing == old(missing)
    {
      hide SettleFailedAdd;
      var source, done := missing[i], missing[..i];
      if SavePlan(source) in c.faults {
        CloseTransaction();
        return PreparationFailed(true);
      }
      WriteJournal(Journal(Applying, done));
      if AddFails(source) in c.faults {
        outcome := SettleAdd(source, done);
        return;
      }
      machine.sources := machine.sources + {source};
      if SaveConfirm(source) in c.faults {
        CloseTransaction();
        return PreparationFailed(true);
      }
      WriteApplied(done + [source]);
      return PreparationDone;
    }

    method WriteApplied(applied: seq<Source>)
      modifies machine
      ensures Snapshot() == AfterApplied(c, old(Snapshot()), applied)
    {
      WriteJournal(Journal(if |applied| == |missing| then JournalStatus.Prepared else Preparing, applied));
    }

    method PrepareCandidateSources(required: bool) returns (outcome: Preparation)
      modifies this, machine
      ensures (Snapshot(), outcome) == Prepare(cfg, c, old(Snapshot()), required)
    {
      if cfg.dryRun || (missing == [] && !cfg.prerequisite && !required) {
        return PreparationDone;
      }
      if NoSecret in c.faults || NoLock in c.faults {
        return PreparationFailed(false);
      }
      if machine.locked {
        expired := true;
        return PreparationFailed(false);
      }
      if SaveBegin in c.faults || c.id in machine.journals {
        return PreparationFailed(false);
      }
      tx := Open;
      machine.locked := true;
      WriteJournal(Journal(JournalStatus.Pending, []));
      ghost var begun := Snapshot();
      outcome := PreparationDone;
      var i := 0;
      while i < |missing|
        invariant 0 <= i <= |missing| && missing == begun.missing
        invariant AddAll(c, begun, 0) == AddAll(c, Snapshot(), i)
        decreases |missing| - i
      {
        outcome := AddSource(i);
        if outcome.PreparationFailed? {
          tx := NoTx;
          return;
        }
        i := i + 1;
      }
      outcome := PreparationDone;
    }

    // ----- the phases -----

    method GateStaticIntent() returns (out: Outcome)
      modifies report
      ensures (out, Snapshot()) == Pipeline.GateStaticIntent(c, old(Snapshot()))
    {
      if c.mismatch {
        SkipCandidate(SkipCapability);
        return NextMethod;
      }
      if !c.whenMatches {
        SkipCandidate(SkipWhen);
        return NextMethod;
      }
      match c.distributions {
        case Invalid =>
          FailCandidate(Plain);
          return FinishTool;
        case NoneMatches =>
          SkipCandidate(SkipNoDistribution);
          return NextMethod;
        case Materialized(mismatch) =>
          if mismatch {
            SkipCandidate(SkipCapability);
            return NextMethod;
          }
        case Ordinary =>
      }
      return Proceed;
    }

    method GateAdapterAvailable() returns (out: Outcome)
      modifies report
      ensures (out, Snapshot()) == Pipeline.GateAdapterAvailable(c, old(Snapshot()))
    {
      if c.adapter.Unregistered? {
        SkipCandidate(SkipUnavailable);
        return NextMethod;
      }
      if c.adapter.Unavailable? {
        SkipCandidate(SkipUnavailable);
        return NextMethod;
      }
      return Proceed;
    }

    method ResolveConcretePlan() returns (out: Outcome)
      modifies this, report
      ensures (out, Snapshot()) == Pipeline.ResolveConcretePlan(c, old(Snapshot()))
    {
      if c.resolution.Unresolved? {
        if c.resolution.terminal {
          FailCandidate(Plain);
          return FinishTool;
        }
        SkipCandidate(FailedAttempt);
        return NextMethod;
      }
      resolved := if c.resolution.Resolved? then Some(c.resolution.plan) else None;
      if !c.hostCompatible {
        SkipCandidate(SkipUnavailable);
        return NextMethod;
      }
      return Proceed;
    }

    method ProbeSourceAvailability() returns (out: Outcome)
      modifies this, report
      ensures (out, Snapshot()) == Pipeline.ProbeSourceAvailability(c, old(Snapshot()))
    {
      if !c.probe.Declared? {
        SkipCandidate(FailedAttempt);
        return NextMethod;
      }
      missing := MissingFrom(c.probe.sources, machine.sources);
      deferred := missing != [];
      if !deferred && !c.indexed {
        SkipCandidate(SkipUnavailable);
        return NextMethod;
      }
      return Proceed;
    }

    method PrepareMissingSources() returns (out: Outcome)
      modifies this, machine, report
      ensures (out, Snapshot()) == Pipeline.PrepareMissingSources(cfg, c, old(Snapshot()))
    {
      hide AddAll;
      var prepared := PrepareCandidateSources(false);
      if prepared.PreparationFailed? {
        SkipCandidate(FailedAttempt);
        if prepared.blocked {
          End(Failed, Plain);
          return FinishTool;
        }
        return NextMethod;
      }
      return Proceed;
    }

    method RecheckPostPrepareAvailability() returns (out: Outcome)
      modifies this, machine, report
      ensures (out, Snapshot()) == Pipeline.RecheckPostPrepareAvailability(cfg, c, old(Snapshot()))
    {
      hide Rollback;
      if deferred && !cfg.dryRun && !c.indexedAfterPrepare {
        var ok := RollBack();
        if !ok {
          FailCandidate(RollbackFailed);
          return FinishTool;
        }
        SkipCandidate(SkipUnavailable);
        return NextMethod;
      }
      return Proceed;
    }

    method SelectCandidateForTransition() returns (out: Outcome)
      modifies this, machine, report
      ensures (out, Snapshot()) == SelectCandidate(cfg, c, old(Snapshot()))
    {
      hide Pipeline.ProbeSourceAvailability, Pipeline.PrepareMissingSources, Pipeline.RecheckPostPrepareAvailability;
      out := ProbeSourceAvailability();
      if out.Proceed? {
        out := PrepareMissingSources();
        if out.Proceed? {
          out := RecheckPostPrepareAvailability();
        }
      }
    }

    method GateAlreadyInstalled() returns (out: Outcome)
      modifies this, machine, report
      ensures (out, Snapshot()) == Pipeline.GateAlreadyInstalled(c, old(Snapshot()))
    {
      hide Rollback;
      if resolved.None? {
        return Proceed;
      }
      if c.verification.VerifyError? {
        SkipCandidate(FailedAttempt);
        return NextMethod;
      }
      match c.verification.state {
        case Satisfied =>
          var ok := RollBack();
          if !ok {
            FailCandidate(RollbackFailed);
          } else {
            End(Already, NoReason);
          }
          return FinishTool;
        case Absent => transition := Install;
        case Drifted => transition := Upgrade;
        case _ =>
          SkipCandidate(FailedAttempt);
          return NextMethod;
      }
      return Proceed;
    }

    method RunCandidatePreinstall() returns (out: Outcome)
      modifies this, machine, report
      ensures (out, Snapshot()) == Pipeline.RunCandidatePreinstall(cfg, c, old(Snapshot()))
    {
      hide Rollback;
      var hooks := if resolved.None? then NoHooks else resolved.value.Before(transition);
      preHookRan := hooks.Runs? && !cfg.dryRun;
      if hooks.Malformed? || (hooks.Aborts? && !cfg.dryRun) {
        var ok := RollBack();
        FailCandidate(if ok then Plain else RollbackFailed);
        return FinishTool;
      }
      return Proceed;
    }

    /** The lock is given up while the prerequisites run: they take it for their own. */
    method EnsureDependencies() returns (met: bool)
      modifies this, machine
      ensures (Snapshot(), met) == RunPrerequisites(c, old(Snapshot()))
    {
      met := true;
      var wasOpen := tx.Open?;
      if wasOpen {
        if SuspendFails in c.faults {
          met := false;
        } else {
          tx := Suspended;
        }
      }
      if met {
        met := !c.needs || c.needsMet;
      }
      if wasOpen && tx.Suspended? {
        if ResumeFails in c.faults {
          machine.locked := false;
          met := false;
        } else {
          tx := Open;
        }
      }
    }

    method TryNext() returns (out: Outcome)
      modifies this, machine, report
      ensures (out, Snapshot()) == FallBack(c, old(Snapshot()))
    {
      hide Rollback;
      var ok := RollBack();
      if !ok {
        FailCandidate(RollbackFailed);
        return FinishTool;
      }
      SkipCandidate(FailedAttempt);
      return NextMethod;
    }

    method RequireMethodPrerequisites() returns (out: Outcome)
      modifies this, machine, report
      ensures (out, Snapshot()) == Pipeline.RequireMethodPrerequisites(cfg, c, old(Snapshot()))
    {
      hide Prepare, FallBack;
      var met := EnsureDependencies();
      if met && c.needs && tx.NoTx? {
        var prepared := PrepareCandidateSources(true);
        met := prepared.PreparationDone?;
      }
      if !met {
        out := TryNext();
        return;
      }
      return Proceed;
    }

    method LeaveCommitUnresolved() returns (out: Outcome)
      modifies this, machine, report
      ensures (out, Snapshot()) == LeaveUnresolved(c, old(Snapshot()))
    {
      CloseTransaction();
      FailCandidate(BoundaryUnresolved);
      return FinishTool;
    }

    method FinishInstalled() returns (out: Outcome)
      modifies this, machine, report
      ensures (out, Snapshot()) == Pipeline.FinishInstalled(c, old(Snapshot()))
    {
      End(Installed, NoReason);
      if !tx.NoTx? {
        if SaveFinal in c.faults {
          CloseTransaction();
          End(Failed, NotFinalized);
          return FinishTool;
        }
        machine.recorded := true;
        machine.journals := machine.journals - {c.id};
        CloseTransaction();
        if CloseFails in c.faults {
          End(Failed, Plain);
          return FinishTool;
        }
      }
      if PostHookFails in c.faults {
        End(Failed, Plain);
      }
      return FinishTool;
    }

    /** After a failed install: the observation decides between recorded, undone and unresolved. */
    method ReconcileFailedOwnerCommit() returns (out: Outcome)
      modifies this, machine, report
      ensures (out, Snapshot()) == Reconcile(cfg, c, old(Snapshot()))
    {
      hide FallBack, Pipeline.FinishInstalled, LeaveUnresolved;
      if !cfg.prerequisite && missing == [] && ClaimsResources(c) && !c.resolution.NoPlan? && NoRecovery !in c.faults {
        if c.observation.Matching? {
          out := FinishInstalled();
          return;
        }
        if c.observation.Missing? && SaveNotApplied !in c.faults && c.id in machine.journals {
          WriteJournal(machine.journals[c.id].(status := JournalStatus.Prepared));
          out := TryNext();
          return;
        }
      }
      out := LeaveCommitUnresolved();
    }

    method RunInstaller() returns (out: Outcome)
      modifies this, machine, report
      ensures (out, Snapshot()) == Pipeline.RunInstaller(cfg, c, old(Snapshot()))
    {
      hide FallBack, Pipeline.FinishInstalled, LeaveUnresolved, Reconcile;
      if c.installer.Installs? {
        if c.installer.after == Verified(Satisfied) {
          out := FinishInstalled();
        } else if tx.NoTx? {
          FailCandidate(Plain);
          out := FinishTool;
        } else {
          out := LeaveCommitUnresolved();
        }
      } else if tx.NoTx? {
        if c.installer.terminal {
          FailCandidate(Plain);
          out := FinishTool;
        } else {
          out := TryNext();
        }
      } else if c.installer.terminal {
        out := LeaveCommitUnresolved();
      } else {
        out := ReconcileFailedOwnerCommit();
      }
    }

    method InstallCandidate() returns (out: Outcome)
      modifies this, machine, report
      ensures (out, Snapshot()) == Pipeline.InstallCandidate(cfg, c, old(Snapshot()))
    {
      hide Rollback, FallBack, Pipeline.RunInstaller;
      if cfg.dryRun {
        SkipCandidate(Success);
        End(WouldInstall, NoReason);
        return FinishTool;
      }
      if !c.credentials {
        out := TryNext();
        return;
      }
      if transition.Upgrade? {
        End(Replacing, NoReason);
        return FinishTool;
      }
      if !tx.NoTx? {
        var ready := c.id in machine.journals
          && (machine.journals[c.id].status.Prepared? || (machine.journals[c.id].status.Pending? && missing == []));
        if !tx.Open? || SaveCommit in c.faults || !ready {
          var ok := RollBack();
          FailCandidate(if ok then Plain else RollbackFailed);
          return FinishTool;
        }
        WriteJournal(machine.journals[c.id].(status := Committing));
      }
      out := RunInstaller();
    }

    /** One candidate through all phases. */
    method Run() returns (out: Outcome)
      requires Snapshot() == Fresh(machine.Snapshot(), report.Snapshot())
      modifies this, machine, report
      ensures (out, Snapshot()) == AttemptMethod(cfg, c, old(machine.Snapshot()), old(report.Snapshot()))
      ensures !out.Proceed? && LeftByAttempt(c, Snapshot(), old(machine.Snapshot()), out)
      ensures out.NextMethod? && !ForgetsTransaction(c) ==>
        && machine.journals == old(machine.journals)
        && old(machine.sources) <= machine.sources <= old(machine.sources) + machine.claimed
    {
      AttemptExit(cfg, c, machine.Snapshot(), report.Snapshot());
      hide Pipeline.GateStaticIntent, Pipeline.GateAdapterAvailable, Pipeline.ResolveConcretePlan, SelectCandidate,
           Pipeline.GateAlreadyInstalled, Pipeline.RunCandidatePreinstall, Pipeline.RequireMethodPrerequisites,
           Pipeline.InstallCandidate;
      out := GateStaticIntent();
      if out.Proceed? {
        out := GateAdapterAvailable();
      }
      if out.Proceed? {
        out := ResolveConcretePlan();
      }
      if out.Proceed? {
        out := SelectCandidateForTransition();
      }
      if out.Proceed? {
        out := GateAlreadyInstalled();
      }
      if out.Proceed? {
        out := RunCandidatePreinstall();
      }
      if out.Proceed? {
        out := RequireMethodPrerequisites();
      }
      if out.Proceed? {
        out := InstallCandidate();
      }
    }
  }

  /** All candidates of a tool in order, until one ends the tool or the context is done. Sources and
      journals on file are kept, and a new journal is accounted for. */
  method TryMethods(cfg: Config, cs: seq<Candidate>, machine: Machine, report: Report)
    modifies machine, report
    ensures (machine.Snapshot(), report.Snapshot())
            == Pipeline.TryMethods(cfg, cs, old(machine.Snapshot()), old(report.Snapshot()))
    ensures old(machine.sources) <= machine.sources
    ensures forall s <- machine.sources :: s in old(machine.sources) || exists c <- cs :: s in DeclaredSources(c)
    ensures forall k <- old(machine.journals)  ::
              k in machine.journals && machine.journals[k] == old(machine.journals)[k]
    ensures forall k <- machine.journals ::
              || k in old(machine.journals)
              || (report.candidate == Some(k) && (report.status.Failed? || report.status.Replacing?))
              || exists c <- cs :: c.id == k && ForgetsTransaction(c)
  {
    hide AttemptMethod, DeclaredSources, ForgetsTransaction;
    RunLeavesNoOtherTrace(cfg, cs, machine.Snapshot(), report.Snapshot());
    for i := 0 to |cs|
      invariant Pipeline.TryMethods(cfg, cs, old(machine.Snapshot()), old(report.Snapshot()))
             == Pipeline.TryMethods(cfg, cs[i..], machine.Snapshot(), report.Snapshot())
    {
      var attempt := new CandidateAttempt(cfg, cs[i], machine, report);
      var out := attempt.Run();
      if out.FinishTool? {
        if report.status.Failed? && (attempt.expired || ContextEnds in cs[i].faults) {
          report.RecordContextFailure();
        }
        return;
      }
      if attempt.expired || ContextEnds in cs[i].faults {
        report.RecordContextFailure();
        return;
      }
    }
    report.FinishExhausted();
  }
}
