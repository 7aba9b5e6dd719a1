/**
 Where a prepared transaction is forgotten with the state lock held, and what becomes of the tool.
 */
module ForgottenTransactions {
  import opened Basics
  import opened Candidates
  import opened Pipeline
  import opened Transactions
  import opened CommitBoundary

  // ----- selection, read off the answers -----

  /** Every gate before the sources are looked at lets the candidate through. */
  predicate GatesPass(c: Candidate) {
    && !c.mismatch && c.whenMatches && c.distributions in {Ordinary, Materialized(false)}
    && c.adapter.Ready? && !c.resolution.Unresolved? && c.hostCompatible
  }

  function Wanted(c: Candidate, host: Host): seq<Source> {
    MissingFrom(DeclaredSources(c), host.sources)
  }

  /** The candidate is taken as far as its preparation. */
  predicate Reaches(c: Candidate, host: Host) {
    GatesPass(c) && c.probe.Declared? && (Wanted(c, host) != [] || c.indexed)
  }

  /** Preparing it takes a transaction of its own. */
  predicate Transacts(cfg: Config, c: Candidate, host: Host) {
    Reaches(c, host) && !cfg.dryRun && (Wanted(c, host) != [] || cfg.prerequisite)
  }

  /** It is selected, with its transaction open. */
  predicate SelectedOpen(cfg: Config, c: Candidate, host: Host) {
    && Transacts(cfg, c, host) && Opens(cfg, c, host, Wanted(c, host))
    && (Wanted(c, host) != [] ==> c.indexedAfterPrepare)
  }

  lemma PreparedSelection(cfg: Config, c: Candidate, x: Attempt)
    requires x.tx.NoTx? && x.missing == [] && !x.expired
    ensures var (out, x') := SelectCandidate(cfg, c, x);
            var wanted := Wanted(c, x.host);
            var reaches := c.probe.Declared? && (wanted != [] || c.indexed);
            var transacts := reaches && !cfg.dryRun && (wanted != [] || cfg.prerequisite);
            && (out.Proceed? && x'.tx.Open? <==>
                 transacts && Opens(cfg, c, x.host, wanted) && (wanted != [] ==> c.indexedAfterPrepare))
            && (x'.expired <==> transacts && x.host.locked && NoSecret !in c.faults && NoLock !in c.faults)
            && (out.Proceed? ==>
                 && x'.missing == wanted
                 && x' == x.(host := x'.host, tx := x'.tx, missing := x'.missing, deferred := wanted != []))
            && (x.host.locked ==> x'.host == x.host && x'.tx.NoTx? && !out.FinishTool?)
            && (x'.expired ==> out.NextMethod?)
            && (x.host.locked ==> (out.Proceed? <==> reaches && !transacts))
  {
    hide Opens, Rollback;
    var (o1, x1) := ProbeSourceAvailability(c, x);
    if o1.Proceed? {
      PrepareSucceeds(cfg, c, x1, false);
      PreparePrepares(cfg, c, x1, false);
      var (x2, prepared) := Prepare(cfg, c, x1, false);
      if prepared.PreparationDone? && x2.deferred && !cfg.dryRun && !c.indexedAfterPrepare {
        RollbackCarries(c, x2);
      }
      if x.host.locked { LockStays(cfg, c, x1, false); }
    }
  }

  lemma LockStays(cfg: Config, c: Candidate, x: Attempt, required: bool)
    requires x.host.locked
    ensures var (x', outcome) := Prepare(cfg, c, x, required);
            && x'.host == x.host && x'.tx == x.tx && outcome != PreparationFailed(true)
            && (outcome.PreparationDone? <==> cfg.dryRun || (x.missing == [] && !cfg.prerequisite && !required))
  {
  }

  lemma SelectedAnswers(cfg: Config, c: Candidate, host: Host, result: ToolResult)
    ensures var (out, x) := Selected(cfg, c, Fresh(host, result));
            && (out.Proceed? && x.tx.Open? <==> SelectedOpen(cfg, c, host))
            && (x.expired <==> Transacts(cfg, c, host) && host.locked && NoSecret !in c.faults && NoLock !in c.faults)
            && (out.Proceed? ==>
                 && x.result == result && x.missing == Wanted(c, host) && !x.preHookRan && x.transition.NoTransition?
                 && x.resolved == PlanOf(c))
            && (host.locked ==> x.host == host && x.tx.NoTx?)
            && (host.locked ==> (out.Proceed? <==> Reaches(c, host) && !Transacts(cfg, c, host)))
            && (host.locked && x.expired ==> out.NextMethod?)
  {
    hide Selected, SelectCandidate, Opens, GatesPass;
    GatesDecide(cfg, c, host, result);
    PreparedSelection(cfg, c, Fresh(host, result).(resolved := PlanOf(c)));
  }

  function PlanOf(c: Candidate): Option<Plan> {
    if c.resolution.Resolved? then Some(c.resolution.plan) else None
  }

  lemma GatesDecide(cfg: Config, c: Candidate, host: Host, result: ToolResult)
    ensures var (out, x) := Selected(cfg, c, Fresh(host, result));
            if GatesPass(c) then (out, x) == SelectCandidate(cfg, c, Fresh(host, result).(resolved := PlanOf(c)))
            else !out.Proceed? && x.host == host && x.tx.NoTx? && !x.expired
  {
    hide SelectCandidate;
  }

  // ----- forgetting -----

  /** The candidate is selected with its transaction open, and its target cannot be verified. */
  predicate Forgets(cfg: Config, c: Candidate, host: Host) {
    SelectedOpen(cfg, c, host) && ForgetsTransaction(c)
  }

  /** The host behind it: the lock held, the sources added, the journal on file. */
  function Abandoned(c: Candidate, host: Host): Host {
    host.(locked := true, sources := host.sources + Elements(Wanted(c, host)),
          journals := host.journals[c.id := FullJournal(Wanted(c, host))])
  }

  /** Exactly these candidates hand over to the next method with their transaction still open, and
      this is the host they leave. */
  lemma OpenTransactionForgotten(cfg: Config, c: Candidate, host: Host, result: ToolResult)
    ensures var (out, x) := AttemptMethod(cfg, c, host, result);
            && (out.NextMethod? && x.tx.Open? <==> Forgets(cfg, c, host))
            && (Forgets(cfg, c, host) ==>
                  x.host == Abandoned(c, host) && !x.expired && x.result.status == result.status)
  {
    hide Selected, Mutating, SelectedOpen, GateAlreadyInstalled;
    SelectedExit(cfg, c, host, result);
    SelectedAnswers(cfg, c, host, result);
    NotSelectedIsClosed(cfg, c, host, result);
    var (o1, x1) := Selected(cfg, c, Fresh(host, result));
    if o1.Proceed? {
      GateExit(cfg, c, x1, host);
      var (o2, x2) := GateAlreadyInstalled(c, x1);
      if o2.Proceed? {
        MutatingExit(cfg, c, x2, host);
      } else if Forgets(cfg, c, host) {
        LockWasFree(cfg, c, host);
      }
    }
  }

  lemma LockWasFree(cfg: Config, c: Candidate, host: Host)
    requires SelectedOpen(cfg, c, host)
    ensures !host.locked && Transacts(cfg, c, host)
  {
  }

  lemma PassedOverIsClosed(cfg: Config, c: Candidate, x: Attempt)
    requires x.tx.NoTx?
    ensures var (out, x') := SelectCandidate(cfg, c, x); out.NextMethod? ==> !x'.tx.Open?
  {
    var (o4, x4) := ProbeSourceAvailability(c, x);
    if o4.Proceed? {
      PreparePrepares(cfg, c, x4, false);
      var (o5, x5) := PrepareMissingSources(cfg, c, x4);
      if o5.Proceed? && x5.tx.Open? {
        PreparedIsJournaled(c, x5, x.host);
        RollbackJournaled(c, x5, x.host, x5.missing);
      }
    }
  }

  lemma NotSelectedIsClosed(cfg: Config, c: Candidate, host: Host, result: ToolResult)
    ensures var (out, x) := Selected(cfg, c, Fresh(host, result)); out.NextMethod? ==> !x.tx.Open?
  {
    hide SelectCandidate;
    var (o3, x3) := ResolveConcretePlan(c, Fresh(host, result));
    PassedOverIsClosed(cfg, c, x3);
  }

  // ----- behind a held lock -----

  /** The hooks before the transition that the verification asks for let the candidate through. */
  predicate HooksPass(c: Candidate) {
    c.resolution.Resolved? ==>
      && c.verification in {Verified(Absent), Verified(Drifted)}
      && c.resolution.plan.Before(if c.verification == Verified(Absent) then Install else Upgrade)
         !in {Malformed, Aborts}
  }

  /** It takes a transaction for its prerequisites. */
  predicate TransactsLater(cfg: Config, c: Candidate, host: Host) {
    && Reaches(c, host) && !cfg.dryRun && Wanted(c, host) == [] && !cfg.prerequisite
    && HooksPass(c) && c.needs && c.needsMet
  }

  /** It comes to the point where it takes the state lock. */
  predicate NeedsLock(cfg: Config, c: Candidate, host: Host) {
    && (Transacts(cfg, c, host) || TransactsLater(cfg, c, host))
    && NoSecret !in c.faults && NoLock !in c.faults
  }

  lemma MutatingOnHeldLock(cfg: Config, c: Candidate, x: Attempt)
    requires x.host.locked && x.tx.NoTx? && !x.expired
    ensures var (out, x') := Mutating(cfg, c, x);
            var hooks := if x.resolved.None? then NoHooks else x.resolved.value.Before(x.transition);
            && x'.host == x.host && !out.Proceed?
            && (x'.expired ==> out.NextMethod?)
            && (!cfg.dryRun ==>
                 (x'.expired <==> hooks !in {Malformed, Aborts} && c.needs && c.needsMet
                                  && NoSecret !in c.faults && NoLock !in c.faults))
            && (cfg.dryRun ==> !x'.expired)
  {
    hide InstallCandidate;
    var (o1, x1) := RunCandidatePreinstall(cfg, c, x);
    if o1.Proceed? {
      LockStays(cfg, c, x1, true);
      var (o2, x2) := RequireMethodPrerequisites(cfg, c, x1);
      if o2.Proceed? {
        InstallWithoutTransaction(cfg, c, x2);
        InstallNeverWaits(cfg, c, x2);
      }
    }
  }

  lemma InstallNeverWaits(cfg: Config, c: Candidate, x: Attempt)
    requires x.tx.NoTx?
    ensures InstallCandidate(cfg, c, x).1.expired == x.expired
  {
  }

  /** While this process holds the lock itself, exactly the candidates that come to the point of
      taking it wait until the context of the tool ends; and no candidate changes the host. */
  lemma AttemptOnHeldLock(cfg: Config, c: Candidate, host: Host, result: ToolResult)
    requires host.locked
    ensures var (out, x) := AttemptMethod(cfg, c, host, result);
            && x.host == host && !out.Proceed?
            && (x.expired <==> NeedsLock(cfg, c, host))
            && (x.expired ==> out.NextMethod?)
  {
    hide Selected, Mutating, Opens, Wanted, GatesPass;
    SelectedAnswers(cfg, c, host, result);
    var (o1, x1) := Selected(cfg, c, Fresh(host, result));
    if o1.Proceed? {
      var (o2, x2) := GateAlreadyInstalled(c, x1);
      if o2.Proceed? {
        MutatingOnHeldLock(cfg, c, x2);
      }
    }
  }

  /** While this process holds the lock, the first candidate that comes to the point of taking it is the
      last one attempted: the wait uses the context up and the tool fails on it, unless a
      candidate before it ended the tool. */
  lemma {:induction false} FirstWaiterEndsTheTool(cfg: Config, before: seq<Candidate>, c: Candidate,
                                                  after: seq<Candidate>, host: Host, result: ToolResult)
    requires host.locked && NeedsLock(cfg, c, host) && result.status.Undecided?
    ensures var (h, r) := TryMethods(cfg, before + ([c] + after), host, result);
            && (h, r) == TryMethods(cfg, before + [c], host, result) && h == host
            && (FailedWithContext(r) || exists b <- before :: r.candidate == Some(b.id))
    decreases |before|
  {
    hide AttemptMethod, NeedsLock;
    if before == [] {
      assert before + ([c] + after) == [c] + after && before + [c] == [c];
      AttemptOnHeldLock(cfg, c, host, result);
    } else {
      var b, rest := before[0], before[1..];
      assert before + ([c] + after) == [b] + (rest + ([c] + after)) && before + [c] == [b] + (rest + [c]);
      AttemptOnHeldLock(cfg, b, host, result);
      AttemptStatuses(cfg, b, host, result);
      var (out, x) := AttemptMethod(cfg, b, host, result);
      if out.NextMethod? && !Expires(b, x) {
        FirstWaiterEndsTheTool(cfg, rest, c, after, host, x.result);
        assert forall d <- rest :: d in before;
      } else {
        assert b in before;
      }
    }
  }

  predicate FailedWithContext(r: ToolResult) {
    r.status.Failed? && r.reason.ContextEnded?
  }

  /** The price of a forgotten transaction: the lock is never given back, the journal stays on file, and
      the first later candidate that needs the lock ends the tool, whatever would follow it. */
  lemma ForgottenTransactionEndsTheTool(cfg: Config, f: Candidate, before: seq<Candidate>, c: Candidate,
                                        after: seq<Candidate>, host: Host, result: ToolResult)
    requires Forgets(cfg, f, host) && NeedsLock(cfg, c, Abandoned(f, host)) && result.status.Undecided?
    ensures var (h, r) := TryMethods(cfg, [f] + (before + ([c] + after)), host, result);
            && h == Abandoned(f, host)
            && (FailedWithContext(r) || exists b <- before :: r.candidate == Some(b.id))
  {
    hide AttemptMethod, Forgets, NeedsLock;
    OpenTransactionForgotten(cfg, f, host, result);
    AttemptStatuses(cfg, f, host, result);
    var (out, x) := AttemptMethod(cfg, f, host, result);
    assert ([f] + (before + ([c] + after)))[1..] == before + ([c] + after);
    if !Expires(f, x) {
      FirstWaiterEndsTheTool(cfg, before, c, after, Abandoned(f, host), x.result);
    }
  }

  // ----- an input -----

  /** A candidate that needs one source and installs without a fault. */
  function Simple(id: nat, source: Source, verification: Verification): Candidate {
    Candidate(id, true, false, true, Ordinary, Ready, Resolved(Plan("tool", NoHooks, NoHooks)), true,
              Declared([source]), true, true, true, verification, false, true, false,
              true, Installs(Verified(Satisfied)), Uncertain, {})
  }

  lemma WantsIts(id: nat, source: Source, verification: Verification, host: Host)
    requires source !in host.sources
    ensures Wanted(Simple(id, source, verification), host) == [source]
  {
    assert [source][1..] == [] && MissingFrom([source][1..], host.sources) == [];
    assert MissingFrom([source], host.sources) == [source] + [];
  }

  lemma SimpleInstalls(id: nat, source: Source, after: seq<Candidate>)
    ensures var (h, r) := TryMethods(Live, [Simple(id, source, Verified(Absent))] + after, EmptyHost, NoResult);
            r.status.Installed? && r.candidate == Some(id) && !h.locked && h.journals == map[]
  {
    hide Selected, MissingFrom;
    var c := Simple(id, source, Verified(Absent));
    WantsIts(id, source, Verified(Absent), EmptyHost);
    SelectedAnswers(Live, c, EmptyHost, NoResult);
    SelectedExit(Live, c, EmptyHost, NoResult);
    var (o1, x1) := Selected(Live, c, Fresh(EmptyHost, NoResult));
    var x2 := x1.(transition := Install);
    assert GateAlreadyInstalled(c, x1) == (Proceed, x2);
    assert RequireMethodPrerequisites(Live, c, x2) == (Proceed, x2);
    var committing := WithJournal(c, x2, x2.host.journals[id].(status := Committing));
    assert InstallCandidate(Live, c, x2) == FinishInstalled(c, committing);
    assert committing.host.journals.Keys == {id};
  }

  /** The target of candidate 0 cannot be verified once its source was added. Candidate 1 would install the
      tool, and does where it comes first; behind candidate 0 it waits, and the tool fails. */
  lemma ForgottenTransactionExample()
    ensures var f, c := Simple(0, "ppa", Verified(Unknown)), Simple(1, "copr", Verified(Absent));
            && (var (h, r) := TryMethods(Live, [f, c], EmptyHost, NoResult);
                FailedWithContext(r) && h.locked && 0 in h.journals && "ppa" in h.sources)
            && (var (h, r) := TryMethods(Live, [c, f], EmptyHost, NoResult);
                r.status.Installed? && r.candidate == Some(1) && !h.locked && h.journals == map[])
  {
    hide AttemptMethod, TryMethods, MissingFrom;
    var f, c := Simple(0, "ppa", Verified(Unknown)), Simple(1, "copr", Verified(Absent));
    WantsIts(0, "ppa", Verified(Unknown), EmptyHost);
    WantsIts(1, "copr", Verified(Absent), Abandoned(f, EmptyHost));
    assert [f, c] == [f] + ([] + ([c] + []));
    ForgottenTransactionEndsTheTool(Live, f, [], c, [], EmptyHost, NoResult);
    assert [c, f] == [c] + [f];
    SimpleInstalls(1, "copr", [f]);
  }
}
