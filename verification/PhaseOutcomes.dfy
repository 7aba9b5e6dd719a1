/**
 What single phases of an attempt decide, read off the faults and answers: how far an undo gets, which
 failed preparations block a tool, when the prerequisites let a candidate through, and when the end
 of the tool's context is what is reported.
 */
module PhaseOutcomes {
  import opened Basics
  import opened Candidates
  import opened Pipeline
  import opened Transactions
  import opened CommitBoundary
  import RunVerdicts

  // ----- undoing -----

  /** Removing the source takes it away. */
  predicate Takes(c: Candidate, s: Source) {
    SaveUndo(s) !in c.faults && (RemoveFails(s) !in c.faults || RemoveSticks(s) !in c.faults)
  }

  /** And the journal says so: a removal that reports an error is looked at again. */
  predicate TakesCleanly(c: Candidate, s: Source) {
    && SaveUndo(s) !in c.faults
    && (if RemoveFails(s) in c.faults then c.faults !! {RemoveSticks(s), UndoProbeFails(s), SaveUndoResolve(s)}
        else SaveUndoConfirm(s) !in c.faults)
  }

  lemma UndoOneDecides(c: Candidate, x: Attempt, s: Source)
    ensures var (x', ok) := UndoOne(c, x, s);
            x' == WithSources(x, x.host.sources - (if Takes(c, s) then {s} else {})) && (ok <==> TakesCleanly(c, s))
  {
    assert x.host.sources - {} == x.host.sources;
  }

  /** What is left of `sources` when undoing stops at position `k`, or comes to the end with `k` zero. */
  function Left(c: Candidate, sources: set<Source>, claimed: set<Source>, applied: seq<Source>, k: nat): set<Source>
    requires k <= |applied|
  {
    sources - (Elements(applied[k..]) - claimed) - (if k > 0 && Takes(c, applied[k - 1]) then {applied[k - 1]} else {})
  }

  /** Undoing stops at `k`: everything behind it was cleanly taken away or is claimed, the one in front of
      it was not. */
  ghost predicate StopsAt(c: Candidate, claimed: set<Source>, applied: seq<Source>, k: nat) {
    && k <= |applied|
    && (forall i :: k <= i < |applied| ==> applied[i] in claimed || TakesCleanly(c, applied[i]))
    && (k > 0 ==> applied[k - 1] !in claimed && !TakesCleanly(c, applied[k - 1]))
  }

  lemma StopsOn(c: Candidate, sources: set<Source>, claimed: set<Source>, before: seq<Source>, last: Source, k: nat)
    requires StopsAt(c, claimed, before, k) && (last in claimed || TakesCleanly(c, last))
    ensures StopsAt(c, claimed, before + [last], k)
    ensures Left(c, sources, claimed, before + [last], k)
            == Left(c, if last in claimed then sources else sources - {last}, claimed, before, k)
  {
    hide Takes, TakesCleanly;
    assert (before + [last])[k..] == before[k..] + [last];
    assert Elements(before[k..] + [last]) == Elements(before[k..]) + {last};
  }

  /** Undoing goes from the last source to the first and stops at the first one that is not cleanly taken
      away: what comes behind it in the list is gone, but for sources that other tools claim, and what
      comes before it is still there. */
  lemma {:induction false} UndoStops(c: Candidate, x: Attempt, applied: seq<Source>) returns (k: nat)
    ensures StopsAt(c, x.host.claimed, applied, k)
    ensures UndoAll(c, x, applied) == (WithSources(x, Left(c, x.host.sources, x.host.claimed, applied, k)), k == 0)
    decreases |applied|
  {
    hide UndoOne, TakesCleanly, Takes, Left, StopsAt;
    if applied == [] {
      k := 0;
      NothingLeftToUndo(c, x);
    } else {
      var last, before := applied[|applied| - 1], applied[..|applied| - 1];
      assert applied == before + [last];
      UndoOneDecides(c, x, last);
      if last in x.host.claimed {
        k := UndoStops(c, x, before);
        StopsOn(c, x.host.sources, x.host.claimed, before, last, k);
      } else if TakesCleanly(c, last) {
        CleanlyTakes(c, last);
        k := UndoStops(c, UndoOne(c, x, last).0, before);
        StopsOn(c, x.host.sources, x.host.claimed, before, last, k);
      } else {
        k := |applied|;
        StopsHere(c, x, applied);
      }
    }
  }

  lemma NothingLeftToUndo(c: Candidate, x: Attempt)
    ensures StopsAt(c, x.host.claimed, [], 0) && Left(c, x.host.sources, x.host.claimed, [], 0) == x.host.sources
  {
  }

  lemma StopsHere(c: Candidate, x: Attempt, applied: seq<Source>)
    requires applied != [] && applied[|applied| - 1] !in x.host.claimed && !TakesCleanly(c, applied[|applied| - 1])
    ensures StopsAt(c, x.host.claimed, applied, |applied|)
    ensures var last := applied[|applied| - 1];
            Left(c, x.host.sources, x.host.claimed, applied, |applied|)
            == x.host.sources - (if Takes(c, last) then {last} else {})
  {
    assert applied[|applied|..] == [];
  }

  lemma CleanlyTakes(c: Candidate, s: Source)
    requires TakesCleanly(c, s)
    ensures Takes(c, s)
  {
  }

  /** Every unclaimed source is cleanly taken away, and every step of the journal is written. */
  predicate UndoesCleanly(c: Candidate, claimed: set<Source>, applied: seq<Source>) {
    && c.faults !! {SavePlanRollback, SaveRollback, CloseFails}
    && forall s <- applied :: s in claimed || TakesCleanly(c, s)
  }

  /** A rollback succeeds exactly when its journal is on file and can be rolled back at all, the lock can be
      taken again if it was given up, and everything is undone cleanly. */
  lemma RollbackSucceedsExactlyWhere(c: Candidate, x: Attempt)
    requires x.tx.Open? || x.tx.Suspended?
    ensures Rollback(c, x).1 <==>
              && (x.tx.Suspended? ==> NoRollbackLock !in c.faults)
              && c.id in x.host.journals
              && x.host.journals[c.id].status !in {Applying, Committing, RollingBack}
              && UndoesCleanly(c, x.host.claimed, x.host.journals[c.id].applied)
  {
    hide UndoAll, TakesCleanly, Takes;
    if c.id in x.host.journals {
      var journal := x.host.journals[c.id];
      var open := x.(tx := Open, host := x.host.(locked := true));
      var begun := WithJournal(c, if x.tx.Open? then x else open, journal.(status := RollingBack));
      var k := UndoStops(c, begun, journal.applied);
      if k > 0 { assert journal.applied[k - 1] in journal.applied; }
      assert k == 0 ==> forall s <- journal.applied :: s in x.host.claimed || TakesCleanly(c, s);
    }
  }

  // ----- preparations that block the tool -----

  /** Adding the source behind `done` leaves something that recovery cannot settle: its record cannot be
      written, what a failed addition did cannot be found out, or what was added so far cannot be undone. */
  predicate Blocks(c: Candidate, claimed: set<Source>, done: seq<Source>, s: Source) {
    || SavePlan(s) in c.faults
    || (if AddFails(s) in c.faults then
          || ProbeFails(s) in c.faults || SaveResolve(s) in c.faults
          || !UndoesCleanly(c, claimed, done + if AddSticks(s) in c.faults then [s] else [])
        else SaveConfirm(s) in c.faults)
  }

  lemma AddOneBlocks(c: Candidate, x: Attempt, i: nat)
    requires i < |x.missing| && x.tx.Open?
    ensures AddOne(c, x, i).1 == PreparationFailed(true) <==> Blocks(c, x.host.claimed, x.missing[..i], x.missing[i])
    ensures AddOne(c, x, i).1.PreparationDone? ==>
              AddOne(c, x, i).0.tx.Open? && AddOne(c, x, i).0.host.claimed == x.host.claimed
  {
    hide SettleFailedAdd, UndoesCleanly;
    var source, done := x.missing[i], x.missing[..i];
    SettlingBlocks(c, WithJournal(c, x, Journal(Applying, done)), source, done);
  }

  lemma SettlingBlocks(c: Candidate, x: Attempt, source: Source, done: seq<Source>)
    requires x.tx.Open?
    ensures var outcome := SettleFailedAdd(c, x, source, done).1;
            && outcome.PreparationFailed?
            && (outcome.blocked <==>
                 || ProbeFails(source) in c.faults || SaveResolve(source) in c.faults
                 || !UndoesCleanly(c, x.host.claimed, done + if AddSticks(source) in c.faults then [source] else []))
  {
    hide Rollback, UndoesCleanly;
    var added := WithSources(x, x.host.sources + {source});
    RollbackSucceedsExactlyWhere(c, AfterApplied(c, added, done + [source]));
    var status := if done == [] then JournalStatus.Pending else Preparing;
    RollbackSucceedsExactlyWhere(c, WithJournal(c, x, Journal(status, done)));
    assert done + [] == done;
  }

  lemma {:induction false} AddAllBlocks(c: Candidate, x: Attempt, i: nat)
    requires i <= |x.missing| && x.tx.Open?
    ensures AddAll(c, x, i).1 == PreparationFailed(true)
            <==> exists j :: i <= j < |x.missing| && AddsCleanly(c, x.missing[i..j])
                             && Blocks(c, x.host.claimed, x.missing[..j], x.missing[j])
    decreases |x.missing| - i
  {
    hide AddOne, Blocks;
    if i < |x.missing| {
      AddOneBlocks(c, x, i);
      AddOneCarries(c, x, i);
      AddOneClean(c, x, i);
      var (x', outcome) := AddOne(c, x, i);
      assert x.missing[i..i] == [];
      if outcome.PreparationDone? {
        AddAllBlocks(c, x', i + 1);
        CleanIsNotBlocked(c, x.host.claimed, x.missing[..i], x.missing[i]);
        forall j | i < j < |x.missing|
          ensures AddsCleanly(c, x.missing[i..j]) <==> AddsCleanly(c, x.missing[i + 1..j])
        {
          assert x.missing[i..j] == [x.missing[i]] + x.missing[i + 1..j];
        }
      } else {
        forall j | i < j < |x.missing| ensures !AddsCleanly(c, x.missing[i..j]) {
          assert x.missing[i..j][0] == x.missing[i];
        }
      }
    }
  }

  lemma AddOneClean(c: Candidate, x: Attempt, i: nat)
    requires i < |x.missing|
    ensures AddOne(c, x, i).1.PreparationDone? <==> AddsCleanly(c, [x.missing[i]])
  {
    hide Rollback;
  }

  lemma CleanIsNotBlocked(c: Candidate, claimed: set<Source>, done: seq<Source>, s: Source)
    requires AddsCleanly(c, [s])
    ensures !Blocks(c, claimed, done, s)
  {
  }

  /** A failed preparation ends the tool exactly when it was begun and the first source that is not cleanly
      added leaves something unsettled; every other failure passes the candidate over. */
  lemma PreparationBlocksExactlyWhere(cfg: Config, c: Candidate, x: Attempt, required: bool)
    requires x.tx.NoTx? && Elements(x.missing) !! x.host.sources
    ensures Prepare(cfg, c, x, required).1 == PreparationFailed(true)
            <==> && !cfg.dryRun && (x.missing != [] || cfg.prerequisite || required)
                 && c.faults !! {NoSecret, NoLock, SaveBegin} && !x.host.locked && c.id !in x.host.journals
                 && exists j :: 0 <= j < |x.missing| && AddsCleanly(c, x.missing[..j])
                                && Blocks(c, x.host.claimed, x.missing[..j], x.missing[j])
  {
    hide AddAll, Blocks;
    var begun := WithJournal(c, x.(tx := Open, host := x.host.(locked := true)), Journal(JournalStatus.Pending, []));
    AddAllBlocks(c, begun, 0);
    forall j | 0 <= j < |x.missing| ensures x.missing[0..j] == x.missing[..j] {}
  }

  // ----- prerequisites and hooks -----

  /** With its transaction open, a candidate gets past its prerequisites exactly when the lock can be given
      up and taken back around them and they are met; without one, when there are none, or they are met
      and a transaction can be opened for them. What it goes on with is what was prepared. */
  lemma PrerequisitesDecide(cfg: Config, c: Candidate, x: Attempt, base: Host)
    requires Selection(cfg, c, x, base)
    ensures var (out, x') := RequireMethodPrerequisites(cfg, c, x);
            var met := !c.needs || c.needsMet;
            && (x.tx.Open? ==>
                 && (out.Proceed? <==> c.faults !! {SuspendFails, ResumeFails} && met)
                 && (out.Proceed? ==> x' == x))
            && (x.tx.NoTx? ==>
                 && (out.Proceed? <==> met && (!c.needs || cfg.dryRun || Opens(cfg, c, x.host, x.missing)))
                 && (out.Proceed? ==> (x'.tx.Open? <==> c.needs && !cfg.dryRun)))
  {
    hide FallBack;
    FallBackGoesNowhere(c, x);
    FallBackGoesNowhere(c, RunPrerequisites(c, x).0);
    if x.tx.NoTx? {
      PrepareSucceeds(cfg, c, x, true);
      FallBackGoesNowhere(c, Prepare(cfg, c, x, true).0);
    }
  }

  lemma FallBackGoesNowhere(c: Candidate, x: Attempt)
    ensures !FallBack(c, x).0.Proceed?
  {
    hide Rollback;
  }

  /** The rollback of a prepared candidate. */
  lemma SelectionUndone(cfg: Config, c: Candidate, x: Attempt, base: Host)
    requires Selection(cfg, c, x, base)
    ensures Rollback(c, x).1 <==> x.tx.NoTx? || UndoesCleanly(c, x.host.claimed, x.missing)
  {
    hide UndoesCleanly, RollbackOpen;
    if x.tx.Open? {
      PreparedIsJournaled(c, x, base);
      RollbackSucceedsExactlyWhere(c, x);
    }
  }

  /** The before-hooks of the transition decide: a schedule that cannot be computed ends the tool, and so do
      hooks that abort, which a dry run does not run. What is remembered is whether any ran; what is
      reported is whether the preparation could be undone. */
  lemma HooksDecide(cfg: Config, c: Candidate, x: Attempt, base: Host)
    requires Selection(cfg, c, x, base)
    ensures var (out, x') := RunCandidatePreinstall(cfg, c, x);
            var hooks := if x.resolved.None? then NoHooks else x.resolved.value.Before(x.transition);
            && (out.Proceed? <==> !hooks.Malformed? && (hooks.Aborts? ==> cfg.dryRun))
            && (out.Proceed? ==> x' == x.(preHookRan := hooks == Runs && !cfg.dryRun))
            && (!out.Proceed? ==>
                 && out.FinishTool? && x'.result.status.Failed? && x'.result.candidate == Some(c.id)
                 && x'.result.reason == Reported(c, x))
  {
    hide Rollback, UndoesCleanly;
    var ran := x.(preHookRan := RunCandidatePreinstall(cfg, c, x).1.preHookRan);
    SelectionUndone(cfg, c, x.(preHookRan := true), base);
    SelectionUndone(cfg, c, x.(preHookRan := false), base);
  }

  /** What a failure behind the preparation is reported as. */
  function Reported(c: Candidate, x: Attempt): Reason {
    if x.tx.NoTx? || UndoesCleanly(c, x.host.claimed, x.missing) then Plain else RollbackFailed
  }

  /** What is known of the target decides between the end of the tool, the next method and the transition. */
  lemma TargetDecides(cfg: Config, c: Candidate, x: Attempt, base: Host)
    requires Selection(cfg, c, x, base) && x.resolved.Some?
    ensures var (out, x') := GateAlreadyInstalled(c, x);
            match c.verification
            case VerifyError => out.NextMethod?
            case Verified(Unknown) => out.NextMethod?
            case Verified(Broken) => out.NextMethod?
            case Verified(Absent) => (out, x') == (Proceed, x.(transition := Install))
            case Verified(Drifted) => (out, x') == (Proceed, x.(transition := Upgrade))
            case Verified(Satisfied) =>
              && out.FinishTool? && x'.result.candidate == Some(c.id)
              && (if Reported(c, x).Plain? then x'.result.status.Already? && x'.result.reason.NoReason?
                  else x'.result.status.Failed? && x'.result.reason.RollbackFailed?)
  {
    hide Rollback, UndoesCleanly;
    SelectionUndone(cfg, c, x, base);
  }

  /** A commit record that cannot be written fails the tool, and says whether the preparation was undone. A
      dry run lists the candidate as a success. */
  lemma UncommittedInstall(cfg: Config, c: Candidate, x: Attempt, base: Host)
    requires Selection(cfg, c, x, base)
    ensures var (out, x') := InstallCandidate(cfg, c, x);
            && (x.tx.Open? && c.credentials && !x.transition.Upgrade? && SaveCommit in c.faults ==>
                 out.FinishTool? && x'.result.status.Failed? && x'.result.reason == Reported(c, x))
            && (cfg.dryRun ==> x'.result.attempts == x.result.attempts + [MethodAttempt(c.id, Success)])
            && (!cfg.dryRun && !c.credentials ==>
                 if Reported(c, x).Plain? then out.NextMethod?
                 else out.FinishTool? && x'.result.status.Failed? && x'.result.reason.RollbackFailed?)
  {
    hide Rollback, RunInstaller, UndoesCleanly;
    SelectionUndone(cfg, c, x, base);
  }

  // ----- what is left on file -----

  /** The journal of a candidate and the sources, as one step of a preparation leaves them. */
  predicate OnFile(c: Candidate, x: Attempt, journal: Journal, sources: set<Source>) {
    c.id in x.host.journals && x.host.journals[c.id] == journal && x.host.sources == sources
  }

  /** What a step of a preparation leaves on file: the sources confirmed so far, prepared once all are, and the
      one whose addition was begun and neither confirmed nor settled. */
  lemma StepsAreJournaled(c: Candidate, x: Attempt, i: nat, journal: Journal)
    requires i < |x.missing| && x.tx.Open? && OnFile(c, x, journal, x.host.sources)
    ensures var (x', outcome) := AddOne(c, x, i);
            var s, done := x.missing[i], x.missing[..i];
            && (SavePlan(s) in c.faults ==> OnFile(c, x', journal, x.host.sources))
            && (SavePlan(s) !in c.faults && AddFails(s) !in c.faults && SaveConfirm(s) in c.faults ==>
                 OnFile(c, x', Journal(Applying, done), x.host.sources + {s}))
            && (SavePlan(s) !in c.faults && AddFails(s) in c.faults
                && (ProbeFails(s) in c.faults || SaveResolve(s) in c.faults) ==>
                 OnFile(c, x', Journal(Applying, done), x.host.sources + if AddSticks(s) in c.faults then {s} else {}))
            && (outcome.PreparationDone? ==>
                 OnFile(c, x', Journal(if i + 1 == |x.missing| then JournalStatus.Prepared else Preparing, done + [s]),
                        x.host.sources + {s}))
  {
    hide SettleFailedAdd;
    UnsettledStep(c, WithJournal(c, x, Journal(Applying, x.missing[..i])), x.missing[i], x.missing[..i]);
  }

  lemma UnsettledStep(c: Candidate, x: Attempt, s: Source, done: seq<Source>)
    requires ProbeFails(s) in c.faults || SaveResolve(s) in c.faults ==> x.tx.Open?
    ensures var (x', outcome) := SettleFailedAdd(c, x, s, done);
            && outcome.PreparationFailed?
            && (ProbeFails(s) in c.faults || SaveResolve(s) in c.faults ==>
                 && x'.host.journals == x.host.journals
                 && x'.host.sources == x.host.sources + if AddSticks(s) in c.faults then {s} else {})
  {
    hide Rollback;
    assert x.host.sources + {} == x.host.sources;
  }

  // ----- the end of the tool's context -----

  /** The context ended while a candidate was attempted that handed over or failed the tool, and every
      candidate before it handed over in time. */
  predicate CutShort(cfg: Config, cs: seq<Candidate>, host: Host, result: ToolResult)
    decreases |cs|
  {
    cs != [] &&
    var (out, x) := AttemptMethod(cfg, cs[0], host, result);
    if Expires(cs[0], x) then out.NextMethod? || x.result.status.Failed?
    else out.NextMethod? && CutShort(cfg, cs[1..], x.host, x.result)
  }

  /** Exactly then the tool fails with its context; a tool that a candidate installed, or found installed, is
      reported so even if the context ended meanwhile. */
  lemma {:induction false} ContextReportedExactlyWhere(cfg: Config, cs: seq<Candidate>, host: Host, result: ToolResult)
    requires !result.reason.ContextEnded? && result.status.Undecided?
    ensures var (_, r) := TryMethods(cfg, cs, host, result);
            && (r.reason.ContextEnded? <==> CutShort(cfg, cs, host, result))
            && (r.reason.ContextEnded? ==> r.status.Failed?)
    decreases |cs|
  {
    hide AttemptMethod;
    if cs != [] {
      NeverItself(cfg, cs[0], host, result);
      var (out, x) := AttemptMethod(cfg, cs[0], host, result);
      if out.NextMethod? && !Expires(cs[0], x) {
        ContextReportedExactlyWhere(cfg, cs[1..], x.host, x.result);
      }
    }
  }

  /** No candidate reports the context by itself. */
  lemma NeverItself(cfg: Config, c: Candidate, host: Host, result: ToolResult)
    requires !result.reason.ContextEnded? && result.status.Undecided?
    ensures var (out, x) := AttemptMethod(cfg, c, host, result);
            && (out.NextMethod? ==> x.result.status.Undecided?)
            && !out.Proceed? && !x.result.reason.ContextEnded?
  {
    hide AttemptMethod;
    AttemptStatuses(cfg, c, host, result);
    RunVerdicts.HandingOverLists(cfg, c, host, result);
    var (out, x) := AttemptMethod(cfg, c, host, result);
    assert Decides(c, out, x);
    assert out.NextMethod? ==> x.result.reason == result.reason;
  }
}
