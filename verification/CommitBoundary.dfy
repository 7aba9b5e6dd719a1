/**
 Safety of the attempt pipeline over whole runs: what a preparation transaction may leave behind,
 and what a failed install behind the commit boundary may turn into.
 */
module CommitBoundary {
  import opened Basics
  import opened Candidates
  import opened Pipeline
  import opened Transactions

  /** The exits of the check for an installed target that leave a prepared transaction open: the
      state of the target is not certain. */
  predicate UncertainTarget(c: Candidate) {
    c.verification in {VerifyError, Verified(Unknown), Verified(Broken)}
  }

  // ----- from the pre-hook on -----

  lemma FallBackUndoes(c: Candidate, x: Attempt, base: Host)
    requires (x.tx.Open? || x.tx.Suspended?) && Journaled(c, x, base, x.missing)
    ensures var (out, x') := FallBack(c, x);
            && Contained(c, x', base, Elements(x.missing)) && x'.missing == x.missing
            && x'.host.recorded == base.recorded
            && (out.NextMethod? ==> Undone(x', base))
            && (!out.NextMethod? ==> out.FinishTool? && x'.result.status.Failed? && x'.result.candidate == Some(c.id))
  {
    RollbackJournaled(c, x, base, x.missing);
  }

  /** How the prerequisites end: the selection stands, it is undone, or the tool ends. */
  ghost predicate PrerequisitesLeft(cfg: Config, c: Candidate, x: Attempt, x': Attempt, base: Host, out: Outcome) {
    && x'.missing == x.missing
    && (out.Proceed? ==> Selection(cfg, c, x', base) && x'.result == x.result && x'.transition == x.transition)
    && (out.NextMethod? ==> Undone(x', base))
    && (out.FinishTool? ==>
         && Contained(c, x', base, Elements(x.missing)) && x'.host.recorded == base.recorded
         && c.id !in base.journals && x'.result.status.Failed? && x'.result.candidate == Some(c.id))
  }

  lemma PrerequisitesExitOpen(cfg: Config, c: Candidate, x: Attempt, base: Host)
    requires Selection(cfg, c, x, base) && x.tx.Open?
    ensures var (out, x') := RequireMethodPrerequisites(cfg, c, x); PrerequisitesLeft(cfg, c, x, x', base, out)
  {
    PreparedIsJournaled(c, x, base);
    var (x1, met) := RunPrerequisites(c, x);
    if !met {
      JournalRewritten(c, x, base, x.missing, Applying);
      FallBackUndoes(c, x1, base);
    }
  }

  lemma PrerequisitesExit(cfg: Config, c: Candidate, x: Attempt, base: Host)
    requires Selection(cfg, c, x, base)
    ensures var (out, x') := RequireMethodPrerequisites(cfg, c, x); PrerequisitesLeft(cfg, c, x, x', base, out)
  {
    if x.tx.Open? {
      PrerequisitesExitOpen(cfg, c, x, base);
    } else {
      PreparePrepares(cfg, c, x, true);
    }
  }

  /** What ends a tool, or hands over to the next method, once the commit boundary is reached. */
  ghost predicate BoundarySettled(c: Candidate, x: Attempt, x': Attempt, base: Host, out: Outcome) {
    && Contained(c, x', base, Elements(x.missing))
    && (out.NextMethod? ==> Undone(x', base) && x'.missing == x.missing)
    && (c.id in x'.host.journals ==>
         && out.FinishTool? && x'.result.candidate == Some(c.id)
         && (x'.result.status.Failed? || x'.result.status.Replacing?))
    && (x'.host.recorded && !base.recorded ==> out.FinishTool? && c.id !in x'.host.journals)
  }

  lemma FallBackSettles(c: Candidate, x: Attempt, base: Host)
    requires x.tx.Open? && Journaled(c, x, base, x.missing)
    ensures var (out, x') := FallBack(c, x); BoundarySettled(c, x, x', base, out) && !out.Proceed?
  {
    RollbackJournaled(c, x, base, x.missing);
  }

  lemma UnresolvedSettles(c: Candidate, x: Attempt, base: Host)
    requires x.tx.Open? && Journaled(c, x, base, x.missing)
    ensures var (out, x') := LeaveUnresolved(c, x);
            && BoundarySettled(c, x, x', base, out) && out.FinishTool?
            && x'.result.status.Failed? && x'.result.reason.BoundaryUnresolved?
            && c.id in x'.host.journals && x'.host.journals[c.id] == x.host.journals[c.id]
  {
    assert x.host.journals - {c.id} == base.journals;
  }

  lemma InstalledSettles(c: Candidate, x: Attempt, base: Host)
    requires x.tx.Open? && Journaled(c, x, base, x.missing)
    ensures var (out, x') := FinishInstalled(c, x);
            && BoundarySettled(c, x, x', base, out) && out.FinishTool?
            && (x'.result.status.Installed? ==> c.id !in x'.host.journals && x'.host.recorded)
            && (c.id in x'.host.journals ==> x'.host.journals == x.host.journals && x'.result.reason.NotFinalized?)
            && (c.id !in x'.host.journals ==> x'.host.recorded)
  {
    assert x.host.journals - {c.id} == base.journals;
    assert (x.host.journals - {c.id}) - {c.id} == base.journals;
  }

  lemma ReconcileSettles(cfg: Config, c: Candidate, x: Attempt, base: Host)
    requires x.tx.Open? && Journaled(c, x, base, x.missing)
    ensures var (out, x') := Reconcile(cfg, c, x); BoundarySettled(c, x, x', base, out) && !out.Proceed?
  {
    UnresolvedSettles(c, x, base);
    InstalledSettles(c, x, base);
    JournalRewritten(c, x, base, x.missing, JournalStatus.Prepared);
    FallBackSettles(c, WithJournal(c, x, x.host.journals[c.id].(status := JournalStatus.Prepared)), base);
  }

  lemma RunInstallerSettles(cfg: Config, c: Candidate, x: Attempt, base: Host)
    requires x.tx.Open? && Journaled(c, x, base, x.missing)
    ensures var (out, x') := RunInstaller(cfg, c, x); BoundarySettled(c, x, x', base, out) && !out.Proceed?
  {
    UnresolvedSettles(c, x, base);
    InstalledSettles(c, x, base);
    ReconcileSettles(cfg, c, x, base);
  }

  lemma InstallExit(cfg: Config, c: Candidate, x: Attempt, base: Host)
    requires Selection(cfg, c, x, base) && x.tx.Open?
    ensures var (out, x') := InstallCandidate(cfg, c, x); BoundarySettled(c, x, x', base, out) && !out.Proceed?
  {
    PreparedIsJournaled(c, x, base);
    if !c.credentials {
      FallBackSettles(c, x, base);
    } else if x.transition.Upgrade? {
      assert x.host.journals - {c.id} == base.journals;
    } else if SaveCommit in c.faults {
      RollbackJournaled(c, x, base, x.missing);
    } else {
      JournalRewritten(c, x, base, x.missing, Committing);
      RunInstallerSettles(cfg, c, WithJournal(c, x, x.host.journals[c.id].(status := Committing)), base);
    }
  }

  /** Commit-boundary safety: from the pre-hook phase on, going on to the next method means that
      the transaction is absent or rolled back, the host is as it was before the candidate, but
      for sources that other tools claim, and no journal of the candidate is on file. */
  lemma FallThroughIsRolledBack(cfg: Config, c: Candidate, x: Attempt, base: Host)
    requires Selection(cfg, c, x, base)
    ensures var (out, x') := Mutating(cfg, c, x);
            out.NextMethod? ==> Undone(x', base) && (x.tx.Open? ==> c.id !in x'.host.journals)
  {
    MutatingExit(cfg, c, x, base);
  }

  lemma PreinstallExit(cfg: Config, c: Candidate, x: Attempt, base: Host)
    requires Selection(cfg, c, x, base)
    ensures var (out, x') := RunCandidatePreinstall(cfg, c, x);
            && !out.NextMethod? && x'.missing == x.missing
            && (out.Proceed? ==> Selection(cfg, c, x', base) && x' == x.(preHookRan := x'.preHookRan))
            && (out.FinishTool? ==> LeftByMutation(c, x, x', base, out))
  {
    if x.tx.Open? {
      var (out, x') := RunCandidatePreinstall(cfg, c, x);
      var x1 := x.(preHookRan := x'.preHookRan);
      PreparedIsJournaled(c, x, base);
      RollbackJournaled(c, x.(preHookRan := true), base, x.missing);
      RollbackJournaled(c, x.(preHookRan := false), base, x.missing);
      assert base.journals - {c.id} == base.journals;
    }
  }

  /** How a selected candidate leaves the host when its hooks, prerequisites or install end. */
  ghost predicate LeftByMutation(c: Candidate, x: Attempt, x': Attempt, base: Host, out: Outcome) {
    && x'.host.claimed == base.claimed
    && base.sources <= x'.host.sources <= base.sources + Elements(x.missing)
    && x'.host.journals - {c.id} == base.journals - {c.id}
    && (c.id in base.journals ==> x'.host.journals == base.journals)
    && (out.NextMethod? ==> Undone(x', base) && x'.missing == x.missing)
    && (c.id in x'.host.journals && c.id !in base.journals ==>
         && out.FinishTool? && x'.result.candidate == Some(c.id)
         && (x'.result.status.Failed? || x'.result.status.Replacing?))
  }

  lemma MutatingExit(cfg: Config, c: Candidate, x: Attempt, base: Host)
    requires Selection(cfg, c, x, base)
    ensures var (out, x') := Mutating(cfg, c, x); !out.Proceed? && LeftByMutation(c, x, x', base, out)
  {
    PreinstallExit(cfg, c, x, base);
    var (o1, x1) := RunCandidatePreinstall(cfg, c, x);
    if o1.Proceed? {
      PrerequisitesExit(cfg, c, x1, base);
      var (o2, x2) := RequireMethodPrerequisites(cfg, c, x1);
      if o2.Proceed? {
        if x2.tx.Open? {
          InstallExit(cfg, c, x2, base);
          assert base.journals - {c.id} == base.journals;
        } else {
          InstallWithoutTransaction(cfg, c, x2);
        }
      } else if c.id !in base.journals {
        assert base.journals - {c.id} == base.journals;
      }
    }
  }

  lemma InstallWithoutTransaction(cfg: Config, c: Candidate, x: Attempt)
    requires x.tx.NoTx?
    ensures var (out, x') := InstallCandidate(cfg, c, x);
            !out.Proceed? && x'.host == x.host && x'.tx.NoTx? && x'.missing == x.missing
  {
  }

  // ----- a failed install behind the boundary -----

  /** The observation after a failed install is taken into account. */
  predicate Observable(cfg: Config, c: Candidate, x: Attempt) {
    !cfg.prerequisite && x.missing == [] && ClaimsResources(c) && !c.resolution.NoPlan? && NoRecovery !in c.faults
  }

  /** The commit was written down and the installer then failed: the install is proved committed
      and recorded; or proved not applied, and rolled back so that another method may try; or it
      ends the tool, with the committing journal on file and the boundary reported as unresolved,
      unless it was proved committed and only the final record could not be saved. A failed
      rollback ends the tool too. Nothing else happens, and which of these it is depends on the
      observation exactly as listed. */
  lemma FailedInstallIsSettled(cfg: Config, c: Candidate, x: Attempt, base: Host)
    requires Selection(cfg, c, x, base) && x.tx.Open? && c.credentials && !x.transition.Upgrade?
    requires SaveCommit !in c.faults && c.installer.InstallError?
    ensures var (out, x') := InstallCandidate(cfg, c, x);
            var recoverable := !c.installer.terminal && Observable(cfg, c, x);
            if recoverable && c.observation.Matching? && SaveFinal !in c.faults then
              out.FinishTool? && x'.host == base.(recorded := true)
              && x'.result.status == (if CloseFails in c.faults || PostHookFails in c.faults then Failed else Installed)
            else if recoverable && c.observation.Missing? && SaveNotApplied !in c.faults then
              if SavePlanRollback in c.faults || SaveRollback in c.faults || CloseFails in c.faults then
                out.FinishTool? && x'.result.status.Failed? && x'.result.reason.RollbackFailed?
              else out.NextMethod? && x'.host == base
            else
              && out.FinishTool? && x'.result.status.Failed?
              && x'.result.reason
                 == (if recoverable && c.observation.Matching? then NotFinalized else BoundaryUnresolved)
              && c.id in x'.host.journals && x'.host.journals[c.id].status.Committing?
  {
    PreparedIsJournaled(c, x, base);
    var x1 := WithJournal(c, x, x.host.journals[c.id].(status := Committing));
    JournalRewritten(c, x, base, x.missing, Committing);
    UnresolvedSettles(c, x1, base);
    if !c.installer.terminal && Observable(cfg, c, x) {
      ReconciledWithoutSources(cfg, c, x1, base);
    }
  }

  /** An installer that succeeded, or failed and is proved committed by observation. */
  predicate ProvedCommitted(cfg: Config, c: Candidate, x: Attempt) {
    || c.installer == Installs(Verified(Satisfied))
    || (c.installer == InstallError(false) && Observable(cfg, c, x) && c.observation.Matching?)
  }

  /** The install is done, but its final record cannot be saved: the tool fails with the committing
      journal on file, and its error does not say that the boundary is open. Exactly this happens
      where the save fails behind an install that is proved committed. */
  lemma NotFinalizedExactlyWhere(cfg: Config, c: Candidate, x: Attempt, base: Host)
    requires Selection(cfg, c, x, base) && x.tx.Open? && c.credentials && !x.transition.Upgrade?
    requires SaveCommit !in c.faults
    ensures var (out, x') := InstallCandidate(cfg, c, x);
            var unrecorded := out.FinishTool? && x'.result.reason.NotFinalized?;
            && (unrecorded <==> SaveFinal in c.faults && ProvedCommitted(cfg, c, x))
            && (unrecorded ==>
                 && x'.result.status.Failed? && x'.result.candidate == Some(c.id)
                 && x'.host
                    == x.host.(locked := false, journals := base.journals[c.id := Journal(Committing, x.missing)]))
  {
    hide RunInstaller;
    PreparedIsJournaled(c, x, base);
    var committing := x.host.journals[c.id].(status := Committing);
    assert InstallCandidate(cfg, c, x) == RunInstaller(cfg, c, WithJournal(c, x, committing));
    InstallerUnrecorded(cfg, c, WithJournal(c, x, committing));
    assert x.host.journals[c.id := committing] == base.journals[c.id := committing];
  }

  lemma InstallerUnrecorded(cfg: Config, c: Candidate, x: Attempt)
    requires x.tx.Open?
    ensures var (out, x') := RunInstaller(cfg, c, x);
            var unrecorded := out.FinishTool? && x'.result.reason.NotFinalized?;
            && (unrecorded <==> SaveFinal in c.faults && ProvedCommitted(cfg, c, x))
            && (unrecorded ==>
                 && x'.result.status.Failed? && x'.result.candidate == Some(c.id)
                 && x'.host == x.host.(locked := false))
  {
    hide FallBack, FinishInstalled, WithJournal, ClaimsResources;
    FallBackNames(c, x);
    if c.id in x.host.journals {
      FallBackNames(c, WithJournal(c, x, x.host.journals[c.id].(status := JournalStatus.Prepared)));
    }
    FinishNames(c, x);
  }

  lemma FallBackNames(c: Candidate, x: Attempt)
    ensures var (out, x') := FallBack(c, x); out.FinishTool? ==> !x'.result.reason.NotFinalized?
  {
    hide Rollback;
  }

  lemma FinishNames(c: Candidate, x: Attempt)
    requires x.tx.Open?
    ensures var (out, x') := FinishInstalled(c, x);
            && out.FinishTool? && (x'.result.reason.NotFinalized? <==> SaveFinal in c.faults)
            && (SaveFinal in c.faults ==>
                 && x'.result.status.Failed? && x'.result.candidate == Some(c.id)
                 && x'.host == x.host.(locked := false))
  {
  }

  lemma ReconciledWithoutSources(cfg: Config, c: Candidate, x: Attempt, base: Host)
    requires x.tx.Open? && Journaled(c, x, base, []) && x.missing == [] && Observable(cfg, c, x)
    requires x.host.journals[c.id].status.Committing?
    ensures var (out, x') := Reconcile(cfg, c, x);
            && (c.observation.Matching? && SaveFinal !in c.faults ==>
                 && out.FinishTool? && x'.host == base.(recorded := true)
                 && x'.result.status
                    == (if CloseFails in c.faults || PostHookFails in c.faults then Failed else Installed))
            && (c.observation.Missing? && SaveNotApplied !in c.faults ==>
                 if SavePlanRollback in c.faults || SaveRollback in c.faults || CloseFails in c.faults then
                   out.FinishTool? && x'.result.status.Failed? && x'.result.reason.RollbackFailed?
                 else out.NextMethod? && x'.host == base)
            && (c.observation.Matching? && SaveFinal in c.faults ==>
                 && out.FinishTool? && x'.result.status.Failed? && x'.result.reason.NotFinalized?
                 && x'.host.journals == x.host.journals)
  {
    hide Rollback;
    assert Elements<Source>([]) == {};
    assert base.sources + {} == base.sources;
    assert x.host.journals - {c.id} == base.journals;
    var x1 := WithJournal(c, x, x.host.journals[c.id].(status := JournalStatus.Prepared));
    JournalRewritten(c, x, base, [], JournalStatus.Prepared);
    NothingToUndo(c, x1, base);
  }

  lemma NothingToUndo(c: Candidate, x: Attempt, base: Host)
    requires x.tx.Open? && Journaled(c, x, base, []) && x.host.journals[c.id].status.Prepared?
    ensures var (x', ok) := Rollback(c, x);
            && (ok <==> SavePlanRollback !in c.faults && SaveRollback !in c.faults && CloseFails !in c.faults)
            && (ok ==> x'.host == base)
  {
    RollbackJournaled(c, x, base, []);
  }

  // ----- an input -----

  const Live := Config(false, false, true)

  const EmptyHost := Host({}, {}, false, map[], false)

  /** A candidate that claims a prerequisite. Its installer fails after the install took effect, and
      the record that would say so cannot be saved. */
  const Unrecorded :=
    Candidate(0, true, false, true, Ordinary, Ready, Resolved(Plan("tool", NoHooks, NoHooks)), true,
              Declared([]), true, true, true, Verified(Absent), true, true, true,
              true, InstallError(false), Matching, {SaveFinal})

  /** The tool is installed, yet it fails, is not recorded, and its journal stays committing. */
  lemma UnrecordedCommitExample()
    ensures var (h, r) := TryMethods(Live, [Unrecorded], EmptyHost, NoResult);
            && r.status.Failed? && r.reason.NotFinalized? && r.candidate == Some(0)
            && h == EmptyHost.(journals := map[0 := Journal(Committing, [])])
  {
    hide Rollback;
    var c, x := Unrecorded, Fresh(EmptyHost, NoResult).(resolved := Some(Plan("tool", NoHooks, NoHooks)));
    assert Selected(Live, c, Fresh(EmptyHost, NoResult)) == (Proceed, x);
    var x1 := x.(transition := Install);
    assert GateAlreadyInstalled(c, x) == (Proceed, x1);
    assert RunCandidatePreinstall(Live, c, x1) == (Proceed, x1);
    var x2 := x1.(tx := Open, host := EmptyHost.(locked := true, journals := map[0 := FullJournal([])]));
    assert Prepare(Live, c, x1, true) == (x2, PreparationDone);
    assert RequireMethodPrerequisites(Live, c, x1) == (Proceed, x2);
    assert Elements<Source>([]) == {};
    NotFinalizedExactlyWhere(Live, c, x2, EmptyHost);
  }

  // ----- whole runs -----

  /** A transaction is forgotten while it is open: the target of a resolved candidate could not be
      verified after its sources were prepared. */
  predicate ForgetsTransaction(c: Candidate) {
    c.resolution.Resolved? && UncertainTarget(c)
  }

  lemma GateExit(cfg: Config, c: Candidate, x: Attempt, base: Host)
    requires Selection(cfg, c, x, base)
    ensures var (out, x') := GateAlreadyInstalled(c, x);
            && (out.Proceed? ==> Selection(cfg, c, x', base) && x' == x.(transition := x'.transition))
            && (out.NextMethod? <==> x.resolved.Some? && UncertainTarget(c))
            && (out.NextMethod? ==> x' == Skip(c, x, FailedAttempt))
            && (out.FinishTool? ==> LeftByMutation(c, x, x', base, out))
  {
    if x.tx.Open? {
      PreparedIsJournaled(c, x, base);
      RollbackJournaled(c, x, base, x.missing);
      assert base.journals - {c.id} == base.journals;
    }
  }

  /** How one candidate may leave the host, in every case. */
  ghost predicate LeftByAttempt(c: Candidate, x: Attempt, host: Host, out: Outcome) {
    && x.host.claimed == host.claimed
    && host.sources <= x.host.sources <= host.sources + Elements(DeclaredSources(c))
    && x.host.journals - {c.id} == host.journals - {c.id}
    && (c.id in host.journals ==> x.host.journals == host.journals)
    && (c.id in x.host.journals && c.id !in host.journals ==>
         || (out.NextMethod? && ForgetsTransaction(c))
         || (out.FinishTool? && x.result.candidate == Some(c.id)
             && (x.result.status.Failed? || x.result.status.Replacing?)))
    && (out.NextMethod? && !ForgetsTransaction(c) ==>
         x.host.journals == host.journals && x.host.sources <= host.sources + host.claimed)
  }

  lemma SelectionLeft(cfg: Config, c: Candidate, x: Attempt, x': Attempt, host: Host, out: Outcome)
    requires Selection(cfg, c, x, host) && LeftByMutation(c, x, x', host, out) && !out.Proceed?
    requires Elements(x.missing) <= Elements(DeclaredSources(c))
    ensures LeftByAttempt(c, x', host, out)
  {
  }

  lemma ForgottenLeft(cfg: Config, c: Candidate, x: Attempt, x': Attempt, host: Host)
    requires Selection(cfg, c, x, host) && x'.host == x.host && ForgetsTransaction(c)
    requires Elements(x.missing) <= Elements(DeclaredSources(c))
    ensures LeftByAttempt(c, x', host, NextMethod)
  {
    if x.tx.Open? {
      assert host.journals - {c.id} == host.journals;
    }
  }

  lemma AttemptExit(cfg: Config, c: Candidate, host: Host, result: ToolResult)
    ensures var (out, x) := AttemptMethod(cfg, c, host, result); !out.Proceed? && LeftByAttempt(c, x, host, out)
  {
    SelectedExit(cfg, c, host, result);
    var (o1, x1) := Selected(cfg, c, Fresh(host, result));
    if o1.Proceed? {
      GateExit(cfg, c, x1, host);
      var (o2, x2) := GateAlreadyInstalled(c, x1);
      if o2.Proceed? {
        MutatingExit(cfg, c, x2, host);
        var (o3, x3) := Mutating(cfg, c, x2);
        SelectionLeft(cfg, c, x2, x3, host, o3);
      } else if o2.NextMethod? {
        ForgottenLeft(cfg, c, x1, x2, host);
      } else {
        SelectionLeft(cfg, c, x1, x2, host, o2);
      }
    }
  }

  predicate DistinctIds(cs: seq<Candidate>) {
    forall i, j :: 0 <= i < j < |cs| ==> cs[i].id != cs[j].id
  }

  /** Over all candidates of a tool: a journal that was not on file before belongs to the candidate
      on which the tool ended failed (or is being replaced), or to one that forgot its open
      transaction; every source that was there is still there, and a new one is declared by a
      candidate. No other trace of a method that was given up survives. */
  lemma {:induction false} RunLeavesNoOtherTrace(cfg: Config, cs: seq<Candidate>, host: Host, result: ToolResult)
    ensures var (host', result') := TryMethods(cfg, cs, host, result);
            && host.sources <= host'.sources
            && (forall s <- host'.sources :: s in host.sources || exists c <- cs :: s in DeclaredSources(c))
            && (forall k <- host.journals :: k in host'.journals && host'.journals[k] == host.journals[k])
            && (forall k <- host'.journals :: k in host.journals
                 || (result'.candidate == Some(k) && (result'.status.Failed? || result'.status.Replacing?))
                 || exists c <- cs :: c.id == k && ForgetsTransaction(c))
    decreases |cs|
  {
    hide AttemptMethod, ForgetsTransaction, DeclaredSources;
    if cs != [] {
      AttemptExit(cfg, cs[0], host, result);
      var (out, x) := AttemptMethod(cfg, cs[0], host, result);
      var (host', result') := TryMethods(cfg, cs, host, result);
      forall k | k in host.journals && k != cs[0].id
        ensures k in x.host.journals && x.host.journals[k] == host.journals[k]
      {
        assert k in host.journals - {cs[0].id} && k in x.host.journals - {cs[0].id};
      }
      forall k | k in x.host.journals && k != cs[0].id ensures k in host.journals {
        assert k in x.host.journals - {cs[0].id} && k in host.journals - {cs[0].id};
      }
      if out.NextMethod? {
        RunLeavesNoOtherTrace(cfg, cs[1..], x.host, x.result);
        assert forall c <- cs[1..] :: c in cs;
      }
    }
  }

  // ----- results -----

  /** Going on to the next method never decides the tool, and a tool that is decided names the
      candidate that decided it. */
  lemma AttemptStatuses(cfg: Config, c: Candidate, host: Host, result: ToolResult)
    requires result.status.Undecided?
    ensures var (out, x) := AttemptMethod(cfg, c, host, result);
            Decides(c, out, x)
  {
    hide Selected, Mutating, Rollback;
    SelectedStatuses(cfg, c, host, result);
    var (o1, x1) := Selected(cfg, c, Fresh(host, result));
    if o1.Proceed? {
      RollbackCarries(c, x1);
      var (o2, x2) := GateAlreadyInstalled(c, x1);
      if o2.Proceed? {
        MutatingStatuses(cfg, c, x2);
      }
    }
  }

  lemma SelectCandidateStatuses(cfg: Config, c: Candidate, x: Attempt)
    ensures var (out, x') := SelectCandidate(cfg, c, x);
            && (out.Proceed? ==> x'.result == x.result)
            && (out.NextMethod? ==> x'.result.status == x.result.status)
            && (out.FinishTool? ==>
                 x'.result.status.Failed? && x'.result.candidate == Some(c.id) && !x'.result.reason.ContextEnded?)
  {
    var (o4, x4) := ProbeSourceAvailability(c, x);
    PrepareCarries(cfg, c, x4, false);
    var (o5, x5) := PrepareMissingSources(cfg, c, x4);
    RollbackCarries(c, x5);
  }

  lemma SelectedStatuses(cfg: Config, c: Candidate, host: Host, result: ToolResult)
    ensures var (out, x) := Selected(cfg, c, Fresh(host, result));
            && (out.Proceed? ==> x.result == result)
            && (out.NextMethod? ==> x.result.status == result.status)
            && (out.FinishTool? ==>
                 x.result.status.Failed? && x.result.candidate == Some(c.id) && !x.result.reason.ContextEnded?)
  {
    hide SelectCandidate;
    var (o3, x3) := ResolveConcretePlan(c, Fresh(host, result));
    SelectCandidateStatuses(cfg, c, x3);
  }

  lemma MutatingStatuses(cfg: Config, c: Candidate, x: Attempt)
    requires x.result.status.Undecided?
    ensures var (out, x') := Mutating(cfg, c, x);
            Decides(c, out, x')
  {
    RollbackCarries(c, x.(preHookRan := true));
    RollbackCarries(c, x.(preHookRan := false));
    var (o1, x1) := RunCandidatePreinstall(cfg, c, x);
    if o1.Proceed? {
      var (p1, met) := RunPrerequisites(c, x1);
      PrepareCarries(cfg, c, p1, true);
      RollbackCarries(c, p1);
      RollbackCarries(c, Prepare(cfg, c, p1, true).0);
      var (o2, x2) := RequireMethodPrerequisites(cfg, c, x1);
      if o2.Proceed? {
        InstallStatuses(cfg, c, x2);
      }
    }
  }

  /** An outcome that keeps the tool undecided, or decides it on candidate `c`, never as skipped. */
  ghost predicate Decides(c: Candidate, out: Outcome, x: Attempt) {
    && !out.Proceed?
    && (out.NextMethod? ==> x.result.status.Undecided?)
    && (out.FinishTool? ==>
         && !x.result.status.Undecided? && !x.result.status.SkippedWhen? && !x.result.status.SkippedUnavailable?
         && x.result.candidate == Some(c.id) && !x.result.reason.ContextEnded?)
  }

  lemma RunInstallerStatuses(cfg: Config, c: Candidate, x: Attempt)
    requires x.result.status.Undecided?
    ensures var (out, x') := RunInstaller(cfg, c, x); Decides(c, out, x')
  {
    hide FallBack, FinishInstalled, LeaveUnresolved, Reconcile;
    FallBackStatuses(c, x);
    EndStatuses(c, x);
    ReconcileStatuses(cfg, c, x);
  }

  lemma ReconcileStatuses(cfg: Config, c: Candidate, x: Attempt)
    requires x.result.status.Undecided?
    ensures var (out, x') := Reconcile(cfg, c, x); Decides(c, out, x')
  {
    hide FallBack, FinishInstalled, LeaveUnresolved, ClaimsResources;
    EndStatuses(c, x);
    if c.id in x.host.journals {
      FallBackStatuses(c, WithJournal(c, x, x.host.journals[c.id].(status := JournalStatus.Prepared)));
    }
  }

  lemma EndStatuses(c: Candidate, x: Attempt)
    ensures var (out, x') := FinishInstalled(c, x); Decides(c, out, x')
    ensures var (out, x') := LeaveUnresolved(c, x); Decides(c, out, x')
  {
  }

  lemma FallBackStatuses(c: Candidate, x: Attempt)
    requires x.result.status.Undecided?
    ensures var (out, x') := FallBack(c, x); Decides(c, out, x')
  {
    hide Rollback;
    RollbackCarries(c, x);
  }

  lemma InstallStatuses(cfg: Config, c: Candidate, x: Attempt)
    requires x.result.status.Undecided?
    ensures var (out, x') := InstallCandidate(cfg, c, x); Decides(c, out, x')
  {
    RollbackCarries(c, x);
    RunInstallerStatuses(cfg, c, x);
    if c.id in x.host.journals {
      RunInstallerStatuses(cfg, c, WithJournal(c, x, x.host.journals[c.id].(status := Committing)));
    }
  }
}
