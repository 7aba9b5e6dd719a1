/**
 Preparation transactions: what a rollback restores whatever fails on the way, what preparing the missing
 sources leaves behind in every outcome, and how the phases up to selection end. The journal of a candidate
 is the only record of what it still owes the host.
 */
module Transactions {
  import opened Basics
  import opened Candidates
  import opened Pipeline

  /** The transaction of a selected candidate, over the host `base` the attempt started from. */
  ghost predicate Prepared(c: Candidate, x: Attempt, base: Host) {
    match x.tx
    case NoTx => x.host == base
    case Open =>
      && !base.locked && c.id !in base.journals
      && Elements(x.missing) !! base.sources
      && x.host == base.(locked := true,
                         sources := base.sources + Elements(x.missing),
                         journals := base.journals[c.id := FullJournal(x.missing)])
    case _ => false
  }

  function FullJournal(missing: seq<Source>): Journal {
    Journal(if missing == [] then JournalStatus.Pending else JournalStatus.Prepared, missing)
  }

  /** Nothing of the attempt is left on the host but the sources other tools claim. */
  ghost predicate Undone(x: Attempt, base: Host) {
    match x.tx
    case NoTx => x.host == base
    case Closed => x.host == base.(sources := base.sources + Elements(x.missing) * base.claimed)
    case _ => false
  }

  // ----- rollback -----

  /** Everything an attempt carries besides the host and the transaction. */
  ghost predicate Carried(x: Attempt, x': Attempt) {
    x' == x.(host := x'.host, tx := x'.tx)
  }

  lemma UndoOneRemoves(c: Candidate, x: Attempt, source: Source)
    ensures var (x', ok) := UndoOne(c, x, source);
            && (x' == x || x' == WithSources(x, x.host.sources - {source}))
            && (ok ==> x' == WithSources(x, x.host.sources - {source}))
  {
  }

  /** Whether it ends well or not, undoing removes applied sources only and keeps claimed ones. */
  lemma {:induction false} UndoAllRemoves(c: Candidate, x: Attempt, applied: seq<Source>)
    ensures var (x', ok) := UndoAll(c, x, applied);
            && x' == WithSources(x, x'.host.sources)
            && x.host.sources - (Elements(applied) - x.host.claimed) <= x'.host.sources <= x.host.sources
            && (ok ==> x'.host.sources == x.host.sources - (Elements(applied) - x.host.claimed))
    decreases |applied|
  {
    if applied != [] {
      var last, before := applied[|applied| - 1], applied[..|applied| - 1];
      assert applied == before + [last];
      assert Elements(applied) == Elements(before) + {last};
      if last in x.host.claimed {
        UndoAllRemoves(c, x, before);
      } else {
        UndoOneRemoves(c, x, last);
        var (x1, ok) := UndoOne(c, x, last);
        UndoAllRemoves(c, x1, before);
      }
    }
  }

  /** What `Rollback` does to a transaction whose journal lists `applied` over `base`. */
  ghost predicate Journaled(c: Candidate, x: Attempt, base: Host, applied: seq<Source>) {
    && c.id in x.host.journals && x.host.journals[c.id].applied == applied
    && c.id !in base.journals && !base.locked
    && x.host == base.(locked := x.tx.Open?,
                       sources := base.sources + Elements(applied),
                       journals := base.journals[c.id := x.host.journals[c.id]])
    && Elements(applied) !! base.sources
  }

  /** Whatever goes wrong, a rollback leaves the state of `base` alone: only this candidate's
      journal may stay, with some of its sources. */
  ghost predicate Contained(c: Candidate, x: Attempt, base: Host, applied: set<Source>) {
    && x.host.claimed == base.claimed
    && base.sources <= x.host.sources <= base.sources + applied
    && x.host.journals - {c.id} == base.journals
  }

  lemma RollbackOpenJournaled(c: Candidate, x: Attempt, base: Host, applied: seq<Source>)
    requires x.tx.Open? && Journaled(c, x, base, applied)
    ensures var (x', ok) := Rollback(c, x);
            && Carried(x, x') && x'.tx.Closed?
            && Contained(c, x', base, Elements(applied))
            && x'.host.recorded == base.recorded && !x'.host.locked
            && (ok ==> x'.host == base.(sources := base.sources + Elements(applied) * base.claimed))
            && (!ok && c.id !in x'.host.journals ==> CloseFails in c.faults)
  {
    hide UndoAll;
    var journal := x.host.journals[c.id];
    var x1 := WithJournal(c, x, journal.(status := RollingBack));
    UndoneOver(c, x1, base, applied);
    var (x2, ok) := UndoAll(c, x1, applied);
    assert (x2.host.journals - {c.id}) == base.journals;
    assert x.host.journals - {c.id} == base.journals;
  }

  lemma UndoneOver(c: Candidate, x: Attempt, base: Host, applied: seq<Source>)
    requires x.host.claimed == base.claimed && x.host.sources == base.sources + Elements(applied)
    requires Elements(applied) !! base.sources
    ensures var (x', ok) := UndoAll(c, x, applied);
            && x' == WithSources(x, x'.host.sources)
            && base.sources <= x'.host.sources <= base.sources + Elements(applied)
            && (ok ==> x'.host.sources == base.sources + Elements(applied) * base.claimed)
  {
    hide UndoAll;
    UndoAllRemoves(c, x, applied);
    assert base.sources + Elements(applied) - (Elements(applied) - base.claimed)
        == base.sources + Elements(applied) * base.claimed;
  }

  lemma RollbackJournaled(c: Candidate, x: Attempt, base: Host, applied: seq<Source>)
    requires (x.tx.Open? || x.tx.Suspended?) && Journaled(c, x, base, applied)
    ensures var (x', ok) := Rollback(c, x);
            && Carried(x, x')
            && Contained(c, x', base, Elements(applied))
            && x'.host.recorded == base.recorded && !x'.host.locked
            && (ok ==> x'.tx.Closed? && x'.host == base.(sources := base.sources + Elements(applied) * base.claimed))
  {
    assert x.host.journals - {c.id} == base.journals;
    if x.tx.Open? {
      RollbackOpenJournaled(c, x, base, applied);
    } else if NoRollbackLock !in c.faults {
      RollbackOpenJournaled(c, x.(tx := Open, host := x.host.(locked := true)), base, applied);
    }
  }

  // ----- selection -----

  /** A preparation that failed: blocked, or rolled back to what `base` was. */
  ghost predicate FailedOver(c: Candidate, x: Attempt, x': Attempt, base: Host, outcome: Preparation) {
    && Carried(x, x') && Contained(c, x', base, Elements(x.missing))
    && x'.host.recorded == base.recorded && !x'.host.locked
    && (outcome == PreparationFailed(false) ==>
         && x'.host.journals == base.journals
         && x'.host.sources <= base.sources + Elements(x.missing) * base.claimed)
  }

  lemma JournalRewritten(c: Candidate, x: Attempt, base: Host, done: seq<Source>, status: JournalStatus)
    requires x.tx.Open? && Journaled(c, x, base, done)
    ensures Journaled(c, WithJournal(c, x, Journal(status, done)), base, done)
    ensures Journaled(c, x.(tx := Suspended, host := x.host.(locked := false)), base, done)
  {
  }

  lemma JournalExtended(c: Candidate, x: Attempt, base: Host, done: seq<Source>, source: Source)
    requires x.tx.Open? && Journaled(c, x, base, done) && source !in base.sources
    ensures var x' := AfterApplied(c, WithSources(x, x.host.sources + {source}), done + [source]);
            Journaled(c, x', base, done + [source])
  {
    assert Elements(done + [source]) == Elements(done) + {source};
  }

  lemma JournalContained(c: Candidate, x: Attempt, base: Host, done: seq<Source>, applied: set<Source>)
    requires x.tx.Open? && Journaled(c, x, base, done) && Elements(done) <= applied
    ensures Contained(c, Close(x), base, applied) && !Close(x).host.locked
  {
    assert x.host.journals - {c.id} == base.journals;
  }

  lemma SourceAdded(c: Candidate, x: Attempt, base: Host, source: Source, applied: set<Source>)
    requires Contained(c, x, base, applied) && source in applied
    ensures Contained(c, WithSources(x, x.host.sources + {source}), base, applied)
  {
  }

  lemma RolledOver(c: Candidate, x: Attempt, y: Attempt, base: Host, done: seq<Source>)
    requires y.tx.Open? && Carried(x, y) && Journaled(c, y, base, done) && Elements(done) <= Elements(x.missing)
    ensures var (x', ok) := Rollback(c, y); FailedOver(c, x, x', base, PreparationFailed(!ok))
  {
    RollbackJournaled(c, y, base, done);
  }

  lemma SettleFails(c: Candidate, x: Attempt, base: Host, source: Source, done: seq<Source>)
    requires x.tx.Open? && Journaled(c, x, base, done)
    requires source !in base.sources && Elements(done + [source]) <= Elements(x.missing)
    ensures var (x', outcome) := SettleFailedAdd(c, x, source, done);
            outcome.PreparationFailed? && FailedOver(c, x, x', base, outcome)
  {
    assert Elements(done + [source]) == Elements(done) + {source};
    var added := WithSources(x, x.host.sources + {source});
    if ProbeFails(source) in c.faults || SaveResolve(source) in c.faults {
      JournalContained(c, x, base, done, Elements(x.missing));
      SourceAdded(c, Close(x), base, source, Elements(x.missing));
    } else if AddSticks(source) in c.faults {
      JournalExtended(c, x, base, done, source);
      RolledOver(c, x, AfterApplied(c, added, done + [source]), base, done + [source]);
    } else {
      var status := if done == [] then JournalStatus.Pending else Preparing;
      JournalRewritten(c, x, base, done, status);
      RolledOver(c, x, WithJournal(c, x, Journal(status, done)), base, done);
    }
  }

  lemma AddOnePrepares(c: Candidate, x: Attempt, base: Host, i: nat)
    requires i < |x.missing| && x.tx.Open? && Journaled(c, x, base, x.missing[..i])
    requires Elements(x.missing) !! base.sources
    ensures var (x', outcome) := AddOne(c, x, i);
            if outcome.PreparationDone? then
              && Carried(x, x') && x'.tx.Open? && Journaled(c, x', base, x.missing[..i + 1])
              && (i + 1 == |x.missing| ==> x'.host.journals[c.id] == FullJournal(x.missing))
            else FailedOver(c, x, x', base, outcome)
  {
    var source, done := x.missing[i], x.missing[..i];
    assert x.missing[..i + 1] == done + [source];
    assert source in Elements(x.missing) && Elements(done + [source]) <= Elements(x.missing);
    var applying := WithJournal(c, x, Journal(Applying, done));
    JournalRewritten(c, x, base, done, Applying);
    if SavePlan(source) in c.faults {
      JournalContained(c, x, base, done, Elements(x.missing));
    } else if AddFails(source) in c.faults {
      SettleFails(c, applying, base, source, done);
    } else if SaveConfirm(source) in c.faults {
      JournalContained(c, applying, base, done, Elements(x.missing));
      SourceAdded(c, Close(applying), base, source, Elements(x.missing));
    } else {
      JournalExtended(c, applying, base, done, source);
      if i + 1 == |x.missing| {
        assert done + [source] == x.missing;
      }
    }
  }

  lemma {:induction false} AddAllPrepares(c: Candidate, x: Attempt, base: Host, i: nat)
    requires i <= |x.missing| && x.tx.Open? && Journaled(c, x, base, x.missing[..i])
    requires Elements(x.missing) !! base.sources
    requires i == |x.missing| ==> x.host.journals[c.id] == FullJournal(x.missing)
    ensures var (x', outcome) := AddAll(c, x, i);
            if outcome.PreparationDone? then Carried(x, x') && x'.tx.Open? && Prepared(c, x', base)
            else FailedOver(c, x, x', base, outcome)
    decreases |x.missing| - i
  {
    if i == |x.missing| {
      assert x.missing[..i] == x.missing;
    } else {
      AddOnePrepares(c, x, base, i);
      var (x', outcome) := AddOne(c, x, i);
      if outcome.PreparationDone? {
        AddAllPrepares(c, x', base, i + 1);
      }
    }
  }

  lemma PreparePrepares(cfg: Config, c: Candidate, x: Attempt, required: bool)
    requires x.tx.NoTx? && Elements(x.missing) !! x.host.sources
    ensures var (x', outcome) := Prepare(cfg, c, x, required);
            && Carried(x.(expired := x'.expired), x')
            && (x.missing == [] && outcome.PreparationFailed? ==> x' == x.(expired := x'.expired))
            && (outcome.PreparationDone? ==> Carried(x, x'))
            && (outcome.PreparationDone? && x'.tx.NoTx? ==> cfg.dryRun || x.missing == [])
            && (cfg.dryRun ==> outcome.PreparationDone? && x' == x)
            && if outcome.PreparationDone? then Prepared(c, x', x.host)
               else x'.tx.NoTx? && (x'.host == x.host || (!x.host.locked && c.id !in x.host.journals
                                                         && FailedOver(c, x, x', x.host, outcome)))
  {
    var begun := WithJournal(c, x.(tx := Open, host := x.host.(locked := true)), Journal(JournalStatus.Pending, []));
    if c.id !in x.host.journals && !x.host.locked {
      assert x.missing[..0] == [];
      assert Journaled(c, begun, x.host, []);
      AddAllPrepares(c, begun, x.host, 0);
    }
  }

  /** A candidate that came through selection: its transaction is prepared, or it needs none. */
  ghost predicate Selection(cfg: Config, c: Candidate, x: Attempt, base: Host) {
    && Prepared(c, x, base) && Elements(x.missing) !! base.sources
    && (cfg.dryRun ==> x.tx.NoTx?)
    && (x.tx.NoTx? ==> cfg.dryRun || x.missing == [])
  }

  lemma PreparedIsJournaled(c: Candidate, x: Attempt, base: Host)
    requires Prepared(c, x, base) && x.tx.Open?
    ensures Journaled(c, x, base, x.missing)
  {
    assert base.journals[c.id := FullJournal(x.missing)][c.id] == FullJournal(x.missing);
  }

  /** How a candidate that is not selected leaves the host. */
  ghost predicate LeftBySelection(c: Candidate, x: Attempt, base: Host, out: Outcome) {
    && x.host.claimed == base.claimed && x.host.recorded == base.recorded
    && base.sources <= x.host.sources <= base.sources + Elements(DeclaredSources(c))
    && x.host.journals - {c.id} == base.journals - {c.id}
    && (c.id in base.journals ==> x.host == base)
    && (out.NextMethod? ==> x.host.journals == base.journals && x.host.sources <= base.sources + base.claimed)
    && (c.id in x.host.journals && c.id !in base.journals ==>
         out.FinishTool? && x.result.status.Failed? && x.result.candidate == Some(c.id))
  }

  lemma PrepareMissingExit(cfg: Config, c: Candidate, x: Attempt)
    requires x.tx.NoTx? && Elements(x.missing) !! x.host.sources && Elements(x.missing) <= Elements(DeclaredSources(c))
    ensures var (out, x') := PrepareMissingSources(cfg, c, x);
            if out.Proceed? then Selection(cfg, c, x', x.host) && Carried(x, x')
            else LeftBySelection(c, x', x.host, out)
  {
    PreparePrepares(cfg, c, x, false);
    assert c.id !in x.host.journals ==> x.host.journals - {c.id} == x.host.journals;
  }

  lemma RecheckExit(cfg: Config, c: Candidate, x: Attempt, base: Host)
    requires Selection(cfg, c, x, base) && Elements(x.missing) <= Elements(DeclaredSources(c))
    requires x.deferred <==> x.missing != []
    ensures var (out, x') := RecheckPostPrepareAvailability(cfg, c, x);
            if out.Proceed? then x' == x else LeftBySelection(c, x', base, out)
  {
    if x.tx.Open? {
      PreparedIsJournaled(c, x, base);
      RollbackJournaled(c, x, base, x.missing);
      assert base.journals - {c.id} == base.journals;
    }
  }

  lemma SelectCandidateExit(cfg: Config, c: Candidate, x: Attempt)
    requires x.tx.NoTx?
    ensures var (out, x') := SelectCandidate(cfg, c, x);
            if out.Proceed? then
              && Selection(cfg, c, x', x.host) && x'.result == x.result && x'.resolved == x.resolved
              && Elements(x'.missing) <= Elements(DeclaredSources(c))
            else LeftBySelection(c, x', x.host, out)
  {
    var (o1, x1) := ProbeSourceAvailability(c, x);
    if o1.Proceed? {
      PrepareMissingExit(cfg, c, x1);
      var (o2, x2) := PrepareMissingSources(cfg, c, x1);
      if o2.Proceed? {
        RecheckExit(cfg, c, x2, x.host);
      }
    }
  }

  lemma SelectedExit(cfg: Config, c: Candidate, host: Host, result: ToolResult)
    ensures var (out, x) := Selected(cfg, c, Fresh(host, result));
            if out.Proceed? then
              && Selection(cfg, c, x, host) && x.result == result
              && Elements(x.missing) <= Elements(DeclaredSources(c))
              && (x.resolved.None? <==> c.resolution.NoPlan?)
            else LeftBySelection(c, x, host, out)
  {
    var x := Fresh(host, result);
    var (o3, x3) := ResolveConcretePlan(c, x);
    if o3.Proceed? {
      SelectCandidateExit(cfg, c, x3);
    }
  }

  // ----- whatever happens, only the host and the transaction change -----

  lemma RollbackOpenCarries(c: Candidate, x: Attempt)
    ensures Carried(x, RollbackOpen(c, x).0)
  {
    if c.id in x.host.journals {
      var journal := x.host.journals[c.id];
      UndoAllRemoves(c, WithJournal(c, x, journal.(status := RollingBack)), journal.applied);
    }
  }

  lemma RollbackCarries(c: Candidate, x: Attempt)
    ensures Carried(x, Rollback(c, x).0)
  {
    RollbackOpenCarries(c, x);
    RollbackOpenCarries(c, x.(tx := Open, host := x.host.(locked := true)));
  }

  lemma SettleCarries(c: Candidate, x: Attempt, source: Source, done: seq<Source>)
    ensures Carried(x, SettleFailedAdd(c, x, source, done).0)
  {
    hide Rollback;
    var added := WithSources(x, x.host.sources + {source});
    RollbackCarries(c, AfterApplied(c, added, done + [source]));
    RollbackCarries(c, WithJournal(c, x, Journal(if done == [] then JournalStatus.Pending else Preparing, done)));
  }

  lemma AddOneCarries(c: Candidate, x: Attempt, i: nat)
    requires i < |x.missing|
    ensures Carried(x, AddOne(c, x, i).0)
  {
    hide SettleFailedAdd;
    var source, done := x.missing[i], x.missing[..i];
    SettleCarries(c, WithJournal(c, x, Journal(Applying, done)), source, done);
  }

  lemma {:induction false} AddAllCarries(c: Candidate, x: Attempt, i: nat)
    requires i <= |x.missing|
    ensures Carried(x, AddAll(c, x, i).0)
    decreases |x.missing| - i
  {
    if i < |x.missing| {
      AddOneCarries(c, x, i);
      var (x', outcome) := AddOne(c, x, i);
      if outcome.PreparationDone? {
        AddAllCarries(c, x', i + 1);
      }
    }
  }

  lemma PrepareCarries(cfg: Config, c: Candidate, x: Attempt, required: bool)
    ensures var x' := Prepare(cfg, c, x, required).0; Carried(x.(expired := x'.expired), x')
  {
    AddAllCarries(c, WithJournal(c, x.(tx := Open, host := x.host.(locked := true)),
                                 Journal(JournalStatus.Pending, [])), 0);
  }

  // ----- when preparation succeeds -----

  predicate AddsCleanly(c: Candidate, missing: seq<Source>) {
    forall s <- missing :: SavePlan(s) !in c.faults && AddFails(s) !in c.faults && SaveConfirm(s) !in c.faults
  }

  lemma {:induction false} AddAllSucceeds(c: Candidate, x: Attempt, i: nat)
    requires i <= |x.missing|
    ensures AddAll(c, x, i).1.PreparationDone? <==> AddsCleanly(c, x.missing[i..])
    decreases |x.missing| - i
  {
    hide Rollback;
    if i < |x.missing| {
      assert x.missing[i..] == [x.missing[i]] + x.missing[i + 1..];
      AddOneCarries(c, x, i);
      var (x', outcome) := AddOne(c, x, i);
      if outcome.PreparationDone? {
        AddAllSucceeds(c, x', i + 1);
      }
    }
  }

  /** A transaction is opened, and every missing source added, exactly when the lock is free and
      taken, no journal of the candidate is on file, and no write-ahead step or addition fails. */
  predicate Opens(cfg: Config, c: Candidate, host: Host, missing: seq<Source>) {
    && !cfg.dryRun && NoSecret !in c.faults && NoLock !in c.faults && !host.locked
    && SaveBegin !in c.faults && c.id !in host.journals && AddsCleanly(c, missing)
  }

  lemma PrepareSucceeds(cfg: Config, c: Candidate, x: Attempt, required: bool)
    requires x.tx.NoTx? && Elements(x.missing) !! x.host.sources
    ensures var (x', outcome) := Prepare(cfg, c, x, required);
            var begins := x.missing != [] || cfg.prerequisite || required;
            && (outcome.PreparationDone? <==> cfg.dryRun || !begins || Opens(cfg, c, x.host, x.missing))
            && (outcome.PreparationDone? ==> (x'.tx.Open? <==> !cfg.dryRun && begins))
            && (x'.expired <==>
                 || x.expired
                 || (!cfg.dryRun && begins && NoSecret !in c.faults && NoLock !in c.faults && x.host.locked))
  {
    var begun := WithJournal(c, x.(tx := Open, host := x.host.(locked := true)), Journal(JournalStatus.Pending, []));
    AddAllSucceeds(c, begun, 0);
    AddAllCarries(c, begun, 0);
    assert x.missing[0..] == x.missing;
    PreparePrepares(cfg, c, x, required);
    if Opens(cfg, c, x.host, x.missing) {
      assert begun.missing[..0] == [];
      assert Journaled(c, begun, x.host, []);
      AddAllPrepares(c, begun, x.host, 0);
    }
  }
}
