/**
 How a run over all candidates ends when none of them decides it, read off the candidates' answers.
 */
module RunVerdicts {
  import opened Basics
  import opened Candidates
  import opened Pipeline
  import opened Transactions
  import opened CommitBoundary
  import opened ForgottenTransactions

  /** Why a candidate that hands over was given up: the first of its answers that speaks against it. A
      candidate that all of them speak for failed on its way to the install or behind it. */
  function Given(cfg: Config, c: Candidate, host: Host): AttemptStatus {
    if c.mismatch then SkipCapability
    else if !c.whenMatches then SkipWhen
    else if c.distributions.NoneMatches? then SkipNoDistribution
    else if c.distributions == Materialized(true) then SkipCapability
    else if !c.adapter.Ready? then SkipUnavailable
    else if c.resolution.Unresolved? then FailedAttempt
    else if !c.hostCompatible then SkipUnavailable
    else if !c.probe.Declared? then FailedAttempt
    else if Wanted(c, host) == [] && !c.indexed then SkipUnavailable
    else if AbsentOncePrepared(cfg, c, host) then SkipUnavailable
    else FailedAttempt
  }

  /** Its missing sources were added, and the package still is not in the index. */
  predicate AbsentOncePrepared(cfg: Config, c: Candidate, host: Host) {
    !cfg.dryRun && Wanted(c, host) != [] && Opens(cfg, c, host, Wanted(c, host)) && !c.indexedAfterPrepare
  }

  function Listed(c: Candidate, result: ToolResult, status: AttemptStatus): ToolResult {
    result.(attempts := result.attempts + [MethodAttempt(c.id, status)])
  }

  lemma SelectionLists(cfg: Config, c: Candidate, x: Attempt)
    requires x.tx.NoTx? && x.missing == [] && !x.expired && GatesPass(c)
    ensures var (out, x') := SelectCandidate(cfg, c, x);
            && (out.Proceed? ==> x'.result == x.result && Given(cfg, c, x.host).FailedAttempt?)
            && (out.NextMethod? ==> x'.result == Listed(c, x.result, Given(cfg, c, x.host)))
  {
    hide Opens, Rollback;
    var (o1, x1) := ProbeSourceAvailability(c, x);
    if o1.Proceed? {
      PrepareSucceeds(cfg, c, x1, false);
      PrepareCarries(cfg, c, x1, false);
      var (x2, prepared) := Prepare(cfg, c, x1, false);
      RollbackCarries(c, x2);
    }
  }

  lemma GatesList(cfg: Config, c: Candidate, host: Host, result: ToolResult)
    ensures var (out, x) := Selected(cfg, c, Fresh(host, result));
            && (out.Proceed? ==> x.result == result && Given(cfg, c, host).FailedAttempt?)
            && (out.NextMethod? ==> x.result == Listed(c, result, Given(cfg, c, host)))
  {
    hide Wanted, AbsentOncePrepared, SelectCandidate;
    if GatesPass(c) {
      GatesDecide(cfg, c, host, result);
      SelectionLists(cfg, c, Fresh(host, result).(resolved := PlanOf(c)));
    }
  }

  lemma FallBackLists(c: Candidate, x: Attempt)
    ensures var (out, x') := FallBack(c, x);
            !out.Proceed? && (out.NextMethod? ==> x'.result == Listed(c, x.result, FailedAttempt))
  {
    hide Rollback;
    RollbackCarries(c, x);
  }

  lemma PrerequisitesList(cfg: Config, c: Candidate, x: Attempt)
    ensures var (out, x') := RequireMethodPrerequisites(cfg, c, x);
            && (out.Proceed? ==> x'.result == x.result)
            && (out.NextMethod? ==> x'.result == Listed(c, x.result, FailedAttempt))
  {
    hide FallBack, Prepare;
    var (x1, met) := RunPrerequisites(c, x);
    PrepareCarries(cfg, c, x1, true);
    FallBackLists(c, x1);
    FallBackLists(c, Prepare(cfg, c, x1, true).0);
  }

  lemma InstallerLists(cfg: Config, c: Candidate, x: Attempt)
    ensures var (out, x') := RunInstaller(cfg, c, x);
            out.NextMethod? ==> x'.result == Listed(c, x.result, FailedAttempt)
  {
    hide FallBack, ClaimsResources;
    FallBackLists(c, x);
    if c.id in x.host.journals {
      FallBackLists(c, WithJournal(c, x, x.host.journals[c.id].(status := JournalStatus.Prepared)));
    }
  }

  lemma InstallLists(cfg: Config, c: Candidate, x: Attempt)
    ensures var (out, x') := InstallCandidate(cfg, c, x);
            out.NextMethod? ==> x'.result == Listed(c, x.result, FailedAttempt)
  {
    hide FallBack, RunInstaller, Rollback;
    FallBackLists(c, x);
    InstallerLists(cfg, c, x);
    if c.id in x.host.journals {
      InstallerLists(cfg, c, WithJournal(c, x, x.host.journals[c.id].(status := Committing)));
    }
  }

  /** A candidate that hands over is listed once, with what spoke against it. */
  lemma HandingOverLists(cfg: Config, c: Candidate, host: Host, result: ToolResult)
    ensures var (out, x) := AttemptMethod(cfg, c, host, result);
            out.NextMethod? ==> x.result == Listed(c, result, Given(cfg, c, host))
  {
    hide Selected, Given, InstallCandidate, RequireMethodPrerequisites, Rollback;
    GatesList(cfg, c, host, result);
    var (o1, x1) := Selected(cfg, c, Fresh(host, result));
    var (o2, x2) := GateAlreadyInstalled(c, x1);
    if o1.Proceed? && o2.Proceed? {
      var (o3, x3) := RunCandidatePreinstall(cfg, c, x2);
      PrerequisitesList(cfg, c, x3);
      InstallLists(cfg, c, RequireMethodPrerequisites(cfg, c, x3).1);
    }
  }

  // ----- whole runs -----

  /** What speaks against the candidates, one by one, as long as they hand over; none of them decides
      the tool, and its context lasts. */
  predicate AllHandOver(cfg: Config, cs: seq<Candidate>, host: Host, result: ToolResult)
    decreases |cs|
  {
    cs == [] ||
    var (out, x) := AttemptMethod(cfg, cs[0], host, result);
    out.NextMethod? && !Expires(cs[0], x) && AllHandOver(cfg, cs[1..], x.host, x.result)
  }

  function Objections(cfg: Config, cs: seq<Candidate>, host: Host, result: ToolResult): seq<AttemptStatus>
    decreases |cs|
  {
    if cs == [] then []
    else
      var (_, x) := AttemptMethod(cfg, cs[0], host, result);
      [Given(cfg, cs[0], host)] + Objections(cfg, cs[1..], x.host, x.result)
  }

  function Statuses(attempts: seq<MethodAttempt>): seq<AttemptStatus> {
    seq(|attempts|, i requires 0 <= i < |attempts| => attempts[i].status)
  }

  /** No candidate decides the tool. */
  predicate Skipped(r: ToolResult) {
    r.status.SkippedWhen? || r.status.SkippedUnavailable?
  }

  /** The verdict over a list of objections: failed behind any failure, gated by conditions if there is
      nothing else. */
  predicate Sums(objections: seq<AttemptStatus>, status: ToolStatus) {
    && (status.Failed? <==> FailedAttempt in objections)
    && (status.SkippedWhen? <==> forall s <- objections :: s.SkipWhen?)
    && (status.SkippedUnavailable? <==>
         FailedAttempt !in objections && exists s <- objections :: !s.SkipWhen?)
  }

  lemma {:induction false} RunSums(cfg: Config, cs: seq<Candidate>, host: Host, result: ToolResult)
    requires result.status.Undecided?
    ensures var (_, r) := TryMethods(cfg, cs, host, result);
            && (AllHandOver(cfg, cs, host, result) ==>
                 && Statuses(r.attempts) == Statuses(result.attempts) + Objections(cfg, cs, host, result)
                 && Sums(Statuses(r.attempts), r.status)
                 && (cs != [] ==> r.candidate == Some(cs[|cs| - 1].id))
                 && (cs == [] && result.attempts != [] ==>
                      r.candidate == Some(result.attempts[|result.attempts| - 1].candidate)))
            && (Skipped(r) ==> AllHandOver(cfg, cs, host, result))
    decreases |cs|
  {
    hide AttemptMethod, Given, Sums;
    if cs == [] {
      ExhaustedSums(result);
      assert Statuses(result.attempts) + [] == Statuses(result.attempts);
    } else {
      HandingOverLists(cfg, cs[0], host, result);
      DecidesNothingSkipped(cfg, cs[0], host, result);
      var (out, x) := AttemptMethod(cfg, cs[0], host, result);
      if out.NextMethod? && !Expires(cs[0], x) {
        RunSums(cfg, cs[1..], x.host, x.result);
        assert Statuses(x.result.attempts) == Statuses(result.attempts) + [Given(cfg, cs[0], host)];
      }
    }
  }

  lemma ExhaustedSums(result: ToolResult)
    ensures Sums(Statuses(result.attempts), Exhausted(result).status) && Exhausted(result).attempts == result.attempts
  {
    var statuses := Statuses(result.attempts);
    forall a <- result.attempts ensures a.status in statuses {
      var i :| 0 <= i < |result.attempts| && result.attempts[i] == a;
      assert statuses[i] == a.status;
    }
    forall s <- statuses ensures exists a <- result.attempts :: a.status == s {
      var i :| 0 <= i < |statuses| && statuses[i] == s;
      assert result.attempts[i] in result.attempts;
    }
  }

  /** A candidate never decides the tool as skipped. */
  lemma DecidesNothingSkipped(cfg: Config, c: Candidate, host: Host, result: ToolResult)
    requires result.status.Undecided?
    ensures var (out, x) := AttemptMethod(cfg, c, host, result);
            !out.Proceed? && !Skipped(x.result) && (out.NextMethod? ==> x.result.status.Undecided?)
  {
    hide AttemptMethod;
    AttemptStatuses(cfg, c, host, result);
    var (out, x) := AttemptMethod(cfg, c, host, result);
    assert out.NextMethod? ==> !Skipped(x.result);
  }

  /** A run that no candidate decides ends failed if something failed on the way, skipped by condition if
      every candidate was gated by its own condition, and unavailable otherwise, each read off the
      first answer that speaks against a candidate; it names the last candidate. No other run ends
      skipped. */
  lemma UndecidedRun(cfg: Config, cs: seq<Candidate>, host: Host)
    ensures var (_, r) := TryMethods(cfg, cs, host, NoResult);
            var objections := Objections(cfg, cs, host, NoResult);
            && (AllHandOver(cfg, cs, host, NoResult) ==>
                 && Statuses(r.attempts) == objections && Sums(objections, r.status)
                 && (cs != [] ==> r.candidate == Some(cs[|cs| - 1].id)))
            && (Skipped(r) ==> AllHandOver(cfg, cs, host, NoResult))
  {
    hide TryMethods, Objections, Sums;
    RunSums(cfg, cs, host, NoResult);
    assert Statuses([]) + Objections(cfg, cs, host, NoResult) == Objections(cfg, cs, host, NoResult);
  }

  /** So a tool is reported as gated by its platform exactly when the condition of every candidate fails
      before anything else does. */
  lemma {:induction false} SkippedWhenExactlyWhere(cfg: Config, cs: seq<Candidate>, host: Host, result: ToolResult)
    requires result.status.Undecided? && forall a <- result.attempts :: a.status.SkipWhen?
    ensures TryMethods(cfg, cs, host, result).1.status.SkippedWhen?
            <==> forall c <- cs :: !c.mismatch && !c.whenMatches && ContextEnds !in c.faults
    decreases |cs|
  {
    hide AttemptMethod;
    if cs != [] {
      var c := cs[0];
      HandingOverLists(cfg, c, host, result);
      DecidesNothingSkipped(cfg, c, host, result);
      var (out, x) := AttemptMethod(cfg, c, host, result);
      if !c.mismatch && !c.whenMatches {
        GatedHandsOver(cfg, c, host, result);
        if ContextEnds !in c.faults { SkippedWhenExactlyWhere(cfg, cs[1..], host, x.result); }
        assert forall d <- cs :: d == c || d in cs[1..];
      } else {
        assert c in cs;
        if out.NextMethod? && !Expires(c, x) {
          OneObjection(cfg, cs[1..], x.host, x.result, |result.attempts|);
        }
      }
    }
  }

  lemma GatedHandsOver(cfg: Config, c: Candidate, host: Host, result: ToolResult)
    requires !c.mismatch && !c.whenMatches
    ensures var (out, x) := AttemptMethod(cfg, c, host, result); out.NextMethod? && x.host == host && !x.expired
  {
  }

  /** An attempt that was not gated by its condition is never forgotten. */
  lemma OneObjection(cfg: Config, cs: seq<Candidate>, host: Host, result: ToolResult, i: nat)
    requires result.status.Undecided? && i < |result.attempts| && !result.attempts[i].status.SkipWhen?
    ensures !TryMethods(cfg, cs, host, result).1.status.SkippedWhen?
  {
    hide TryMethods, Objections;
    RunSums(cfg, cs, host, result);
    var r := TryMethods(cfg, cs, host, result).1;
    if AllHandOver(cfg, cs, host, result) {
      assert Statuses(r.attempts)[i] == Statuses(result.attempts)[i];
    }
  }
}
