/**
 What an install decides: when the tool ends installed, when it fails, when the next method is tried,
 with and without a transaction, and what that means for the candidates behind it.
 */
module InstallOutcomes {
  import opened Basics
  import opened Candidates
  import opened Pipeline
  import opened Transactions
  import opened CommitBoundary

  /** The phases in front of the install. */
  function BeforeInstall(cfg: Config, c: Candidate, host: Host, result: ToolResult): (Outcome, Attempt) {
    var (o1, x1) := Selected(cfg, c, Fresh(host, result));
    if !o1.Proceed? then (o1, x1) else
    var (o2, x2) := GateAlreadyInstalled(c, x1);
    if !o2.Proceed? then (o2, x2) else
    var (o3, x3) := RunCandidatePreinstall(cfg, c, x2);
    if !o3.Proceed? then (o3, x3) else
    RequireMethodPrerequisites(cfg, c, x3)
  }

  /** The candidate comes to a live install of its own, not to the replacement of an older target. */
  predicate ComesToInstall(cfg: Config, c: Candidate, host: Host, result: ToolResult) {
    var (out, x) := BeforeInstall(cfg, c, host, result);
    out.Proceed? && c.credentials && !x.transition.Upgrade? && !cfg.dryRun
  }

  /** The tool ends failed, on this candidate. */
  predicate FailsOn(c: Candidate, out: Outcome, x: Attempt) {
    out.FinishTool? && x.result.status.Failed? && x.result.candidate == Some(c.id)
  }

  /** In front of the installer: a dry run announces the tool, a candidate without its credentials is
      undone and passed over, an upgrade is left to the replacement, and an unwritten commit record
      fails the tool. The installer does not run in any of these cases. */
  lemma InstallGates(cfg: Config, c: Candidate, x: Attempt, base: Host)
    requires Selection(cfg, c, x, base)
    ensures var (out, x') := InstallCandidate(cfg, c, x);
            && (cfg.dryRun ==>
                 out.FinishTool? && x'.result.status.WouldInstall? && x'.result.candidate == Some(c.id)
                 && x'.host == base)
            && (!cfg.dryRun && !c.credentials ==>
                 (out.NextMethod? && Undone(x', base)) || (FailsOn(c, out, x') && x'.result.reason.RollbackFailed?))
            && (!cfg.dryRun && !c.credentials && x.tx.NoTx? ==> out.NextMethod? && x'.host == base)
            && (!cfg.dryRun && c.credentials && x.transition.Upgrade? ==>
                 out.FinishTool? && x'.result.status.Replacing? && x'.result.candidate == Some(c.id))
            && (!cfg.dryRun && c.credentials && !x.transition.Upgrade? && x.tx.Open? && SaveCommit in c.faults ==>
                 FailsOn(c, out, x'))
  {
    hide Rollback, RunInstaller;
    if x.tx.Open? {
      PreparedIsJournaled(c, x, base);
      RollbackJournaled(c, x, base, x.missing);
    } else {
      assert Rollback(c, x) == (x, true) by { NothingOpen(c, x); }
    }
  }

  lemma NothingOpen(c: Candidate, x: Attempt)
    requires x.tx.NoTx?
    ensures Rollback(c, x) == (x, true)
  {
  }

  /** Without a transaction nothing is undone or recorded: the next method is tried exactly behind an
      installer error that is not terminal, the tool ends installed exactly when the installer
      succeeds, its target is verified and no hook fails behind it, and every other case fails the
      tool here. */
  lemma PlainInstall(cfg: Config, c: Candidate, x: Attempt)
    requires x.tx.NoTx? && c.credentials && !x.transition.Upgrade? && !cfg.dryRun
    ensures var (out, x') := InstallCandidate(cfg, c, x);
            && x'.host == x.host && !out.Proceed?
            && (out.NextMethod? <==> c.installer == InstallError(false))
            && (out.FinishTool? && x'.result.status.Installed? <==>
                 c.installer == Installs(Verified(Satisfied)) && PostHookFails !in c.faults)
            && (out.NextMethod? || (out.FinishTool? && x'.result.status.Installed? && x'.result.candidate == Some(c.id))
                || FailsOn(c, out, x'))
  {
  }

  /** Behind the commit boundary the next method is tried exactly when the installer failed, not
      terminally, observation proves that nothing was applied, and the rollback succeeds. The tool ends
      installed exactly when the install is proved committed, its record is saved, the lock is
      given back and no hook fails. Every other case fails the tool here. */
  lemma CommittedInstall(cfg: Config, c: Candidate, x: Attempt, base: Host)
    requires Selection(cfg, c, x, base) && x.tx.Open? && c.credentials && !x.transition.Upgrade?
    requires SaveCommit !in c.faults
    ensures var (out, x') := InstallCandidate(cfg, c, x);
            && !out.Proceed?
            && (out.NextMethod? <==>
                 && c.installer == InstallError(false) && Observable(cfg, c, x) && c.observation.Missing?
                 && c.faults !! {SaveNotApplied, SavePlanRollback, SaveRollback, CloseFails})
            && (out.NextMethod? ==> x'.host == base)
            && (out.FinishTool? && x'.result.status.Installed? <==>
                 ProvedCommitted(cfg, c, x) && c.faults !! {SaveFinal, CloseFails, PostHookFails})
            && (out.FinishTool? && x'.result.status.Installed? ==>
                 && x'.result.candidate == Some(c.id)
                 && x'.host == x.host.(locked := false, journals := base.journals, recorded := true))
            && (out.NextMethod? || (out.FinishTool? && x'.result.status.Installed?) || FailsOn(c, out, x'))
  {
    hide RunInstaller, Observable;
    PreparedIsJournaled(c, x, base);
    var committing := x.host.journals[c.id].(status := Committing);
    var x1 := WithJournal(c, x, committing);
    assert InstallCandidate(cfg, c, x) == RunInstaller(cfg, c, x1);
    assert x.host.journals[c.id := committing] - {c.id} == base.journals;
    JournalRewritten(c, x, base, x.missing, Committing);
    assert Observable(cfg, c, x1) == Observable(cfg, c, x) by { ObservesAlike(cfg, c, x, committing); }
    InstallerDecides(cfg, c, x1, base);
  }

  lemma ObservesAlike(cfg: Config, c: Candidate, x: Attempt, journal: Journal)
    ensures Observable(cfg, c, WithJournal(c, x, journal)) == Observable(cfg, c, x)
  {
  }

  lemma InstallerDecides(cfg: Config, c: Candidate, x: Attempt, base: Host)
    requires x.tx.Open? && Journaled(c, x, base, x.missing) && x.host.journals[c.id].status.Committing?
    ensures var (out, x') := RunInstaller(cfg, c, x);
            && !out.Proceed?
            && (out.NextMethod? <==>
                 && c.installer == InstallError(false) && Observable(cfg, c, x) && c.observation.Missing?
                 && c.faults !! {SaveNotApplied, SavePlanRollback, SaveRollback, CloseFails})
            && (out.NextMethod? ==> x'.host == base)
            && (out.FinishTool? && x'.result.status.Installed? <==>
                 ProvedCommitted(cfg, c, x) && c.faults !! {SaveFinal, CloseFails, PostHookFails})
            && (out.FinishTool? && x'.result.status.Installed? ==>
                 && x'.result.candidate == Some(c.id)
                 && x'.host == x.host.(locked := false, journals := x.host.journals - {c.id}, recorded := true))
            && (out.NextMethod? || (out.FinishTool? && x'.result.status.Installed?) || FailsOn(c, out, x'))
  {
    hide FallBack, FinishInstalled, LeaveUnresolved, ClaimsResources;
    FinishDecides(c, x);
    LeavingFails(c, x);
    if Observable(cfg, c, x) {
      UndoDecides(c, x, base);
    }
  }

  lemma FinishDecides(c: Candidate, x: Attempt)
    requires x.tx.Open?
    ensures var (out, x') := FinishInstalled(c, x);
            && out.FinishTool? && x'.result.candidate == Some(c.id)
            && (x'.result.status.Installed? <==> c.faults !! {SaveFinal, CloseFails, PostHookFails})
            && (x'.result.status.Installed? ==>
                 x'.host == x.host.(locked := false, journals := x.host.journals - {c.id}, recorded := true))
            && (!x'.result.status.Installed? ==> x'.result.status.Failed?)
  {
  }

  lemma LeavingFails(c: Candidate, x: Attempt)
    ensures var (out, x') := LeaveUnresolved(c, x); FailsOn(c, out, x')
  {
  }

  lemma UndoDecides(c: Candidate, x: Attempt, base: Host)
    requires x.tx.Open? && Journaled(c, x, base, x.missing) && x.missing == []
    ensures var undone := WithJournal(c, x, x.host.journals[c.id].(status := JournalStatus.Prepared));
            var (out, x') := FallBack(c, undone);
            if c.faults !! {SavePlanRollback, SaveRollback, CloseFails} then out.NextMethod? && x'.host == base
            else FailsOn(c, out, x')
  {
    hide Rollback;
    JournalRewritten(c, x, base, [], JournalStatus.Prepared);
    NothingToUndo(c, WithJournal(c, x, x.host.journals[c.id].(status := JournalStatus.Prepared)), base);
  }

  // ----- the candidates behind it -----

  lemma AttemptIs(cfg: Config, c: Candidate, host: Host, result: ToolResult)
    ensures var (out, x) := BeforeInstall(cfg, c, host, result);
            AttemptMethod(cfg, c, host, result) == if out.Proceed? then InstallCandidate(cfg, c, x) else (out, x)
  {
    hide Selected, GateAlreadyInstalled, RunCandidatePreinstall, RequireMethodPrerequisites, InstallCandidate;
  }

  /** A terminal installer error never hands over: no later candidate is attempted, with a transaction
      or without one, and the tool fails on this candidate. */
  lemma TerminalErrorEndsTheTool(cfg: Config, c: Candidate, rest: seq<Candidate>, host: Host, result: ToolResult)
    requires ComesToInstall(cfg, c, host, result) && c.installer == InstallError(true)
    ensures var (h, r) := TryMethods(cfg, [c] + rest, host, result);
            && (h, r) == TryMethods(cfg, [c], host, result)
            && r.status.Failed? && r.candidate == Some(c.id)
  {
    hide AttemptMethod, BeforeInstall;
    AttemptIs(cfg, c, host, result);
    TerminalFails(cfg, c, BeforeInstall(cfg, c, host, result).1);
  }

  lemma TerminalFails(cfg: Config, c: Candidate, x: Attempt)
    requires c.credentials && !x.transition.Upgrade? && !cfg.dryRun && c.installer == InstallError(true)
    ensures var (out, x') := InstallCandidate(cfg, c, x); FailsOn(c, out, x')
  {
    hide Rollback, LeaveUnresolved;
    LeavingFails(c, x);
    if c.id in x.host.journals {
      LeavingFails(c, WithJournal(c, x, x.host.journals[c.id].(status := Committing)));
    }
  }

  /** Any other installer error without a transaction does hand over: the attempt is listed as failed and
      the rest of the candidates decides, on the host as it is, unless the context ended meanwhile. */
  lemma RecoverableErrorHandsOver(cfg: Config, c: Candidate, rest: seq<Candidate>, host: Host, result: ToolResult)
    requires ComesToInstall(cfg, c, host, result) && c.installer == InstallError(false) && ContextEnds !in c.faults
    requires var x := BeforeInstall(cfg, c, host, result).1; x.tx.NoTx? && !x.expired
    ensures var x := BeforeInstall(cfg, c, host, result).1;
            var listed := x.result.(attempts := x.result.attempts + [MethodAttempt(c.id, FailedAttempt)]);
            TryMethods(cfg, [c] + rest, host, result) == TryMethods(cfg, rest, x.host, listed)
  {
    hide AttemptMethod, BeforeInstall;
    AttemptIs(cfg, c, host, result);
    PlainInstall(cfg, c, BeforeInstall(cfg, c, host, result).1);
    assert ([c] + rest)[1..] == rest;
  }

  // ----- an input -----

  /** A candidate without sources that is selected as it stands. */
  function Installing(id: nat, installer: Installer): Candidate {
    Candidate(id, true, false, true, Ordinary, Ready, Resolved(Plan("tool", NoHooks, NoHooks)), true,
              Declared([]), true, true, true, Verified(Absent), false, true, false, true, installer, Uncertain, {})
  }

  /** Behind an integrity mismatch the second candidate is not tried; behind any other error it installs. */
  lemma TerminalErrorExample()
    ensures var second := Installing(1, Installs(Verified(Satisfied)));
            && (var (h, r) := TryMethods(Live, [Installing(0, InstallError(true)), second], EmptyHost, NoResult);
                r.status.Failed? && r.candidate == Some(0) && h == EmptyHost)
            && (var (h, r) := TryMethods(Live, [Installing(0, InstallError(false)), second], EmptyHost, NoResult);
                r.status.Installed? && r.candidate == Some(1) && h == EmptyHost)
  {
  }
}
