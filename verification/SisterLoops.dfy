/**
 Batch preflight, lock resolution and `why` against the serial executor.
 */
module SisterLoops {
  import opened Basics
  import opened Candidates
  import opened Pipeline
  import CommitBoundary
  import RunVerdicts

  // Each of the three repeats the executor's selection with a loop of its own, which is a method
  // here; what it agrees on with the serial phases is proved below it.

  // ----- the gates shared by lock resolution and `why` -----

  datatype Selection = Rejected(status: AttemptStatus, terminal: bool) | Chosen(plan: Plan)

  function ResolveForSelection(c: Candidate): Selection {
    if c.mismatch then Rejected(SkipCapability, false)
    else if !c.whenMatches then Rejected(SkipWhen, false)
    else if c.distributions.Invalid? then Rejected(FailedAttempt, true)
    else if c.distributions.NoneMatches? then Rejected(SkipNoDistribution, false)
    else if c.distributions == Materialized(true) then Rejected(SkipCapability, false)
    else if !c.adapter.Ready? then Rejected(SkipUnavailable, false)
    else
      match c.resolution
      case Unresolved(terminal) => Rejected(FailedAttempt, terminal)
      case NoPlan => Rejected(FailedAttempt, false)
      case Resolved(plan) => if c.hostCompatible then Chosen(plan) else Rejected(SkipUnavailable, false)
  }

  /** The sources can be observed, and either one is missing or the package is in the index. */
  predicate Obtainable(c: Candidate, host: Host) {
    c.probe.Declared? && (MissingFrom(c.probe.sources, host.sources) != [] || c.indexed)
  }

  // ----- lock resolution -----

  /** The locked candidate with its plan; a terminal error of a candidate; or none, with the
      candidate whose error is reported. */
  datatype LockOutcome = Locked(id: nat, plan: Plan) | LockAborted(id: nat) | NotLocked(reported: Option<nat>)

  function LockFrom(cs: seq<Candidate>, host: Host, reported: Option<nat>): LockOutcome {
    if cs == [] then NotLocked(reported)
    else
      var c := cs[0];
      match ResolveForSelection(c)
      case Rejected(status, terminal) =>
        if terminal then LockAborted(c.id)
        else LockFrom(cs[1..], host, if status.FailedAttempt? || reported.None? then Some(c.id) else reported)
      case Chosen(plan) =>
        if !c.probe.Declared? then LockFrom(cs[1..], host, Some(c.id))
        else if !Obtainable(c, host) then LockFrom(cs[1..], host, if reported.None? then Some(c.id) else reported)
        else if !c.revisionsApply then LockFrom(cs[1..], host, Some(c.id))
        else Locked(c.id, plan)
  }

  method ResolveLockCandidate(cs: seq<Candidate>, host: Host) returns (outcome: LockOutcome)
    ensures outcome == LockFrom(cs, host, None)
  {
    var reported: Option<nat> := None;
    var i := 0;
    while i < |cs|
      invariant 0 <= i <= |cs|
      invariant LockFrom(cs, host, None) == LockFrom(cs[i..], host, reported)
    {
      var c := cs[i];
      var selection := ResolveForSelection(c);
      i := i + 1;
      if selection.Rejected? {
        if selection.terminal {
          return LockAborted(c.id);
        }
        if selection.status.FailedAttempt? || reported.None? {
          reported := Some(c.id);
        }
      } else if !c.probe.Declared? {
        reported := Some(c.id);
      } else if MissingFrom(c.probe.sources, host.sources) == [] && !c.indexed {
        if reported.None? {
          reported := Some(c.id);
        }
      } else if !c.revisionsApply {
        reported := Some(c.id);
      } else {
        return Locked(c.id, selection.plan);
      }
    }
    return NotLocked(reported);
  }

  /** The candidate fails by itself, not because something is unavailable here. */
  predicate LockFails(c: Candidate, host: Host) {
    match ResolveForSelection(c)
    case Rejected(status, _) => status.FailedAttempt?
    case Chosen(_) => !c.probe.Declared? || (Obtainable(c, host) && !c.revisionsApply)
  }

  /** It is the last of the candidates that does. */
  predicate LastFailure(cs: seq<Candidate>, host: Host, k: nat) {
    k < |cs| && LockFails(cs[k], host) && forall j :: k < j < |cs| ==> !LockFails(cs[j], host)
  }

  lemma {:induction false} ReportsFrom(cs: seq<Candidate>, host: Host, reported: Option<nat>)
    requires LockFrom(cs, host, reported).NotLocked?
    ensures var r := LockFrom(cs, host, reported).reported;
            && ((forall c <- cs :: !LockFails(c, host)) ==>
                 r == if reported.None? && cs != [] then Some(cs[0].id) else reported)
            && (forall k: nat :: LastFailure(cs, host, k) ==> r == Some(cs[k].id))
    decreases |cs|
  {
    if cs != [] {
      var c, rest := cs[0], cs[1..];
      var next := if LockFails(c, host) || reported.None? then Some(c.id) else reported;
      assert LockFrom(cs, host, reported) == LockFrom(rest, host, next);
      ReportsFrom(rest, host, next);
      hide LockFrom, LockFails;
      assert c in cs && forall d <- rest :: d in cs;
      if forall d <- rest :: !LockFails(d, host) {
        forall k | 0 < k < |cs| ensures !LockFails(cs[k], host) { assert cs[k] in rest; }
      }
      forall k | 0 < k < |cs| ensures cs[k] == rest[k - 1] {}
    }
  }

  /** Where nothing can be locked, the error reported is that of the last candidate that failed by itself, and
      of the first candidate if all were only unavailable. */
  lemma LastFailureIsReported(cs: seq<Candidate>, host: Host)
    requires LockFrom(cs, host, None).NotLocked?
    ensures var r := LockFrom(cs, host, None).reported;
            && ((forall c <- cs :: !LockFails(c, host)) ==> r == if cs == [] then None else Some(cs[0].id))
            && (forall k: nat :: LastFailure(cs, host, k) ==> r == Some(cs[k].id))
  {
    ReportsFrom(cs, host, None);
  }

  // ----- `why` -----

  datatype WhyStatus = WhySkip(status: AttemptStatus) | WhyFailed | WhyBlocked | WhyAlready | WhyWouldInstall
                       | WhyPolicy

  datatype Explained = Explained(candidate: nat, status: WhyStatus)

  function TerminalRejection(c: Candidate): bool {
    var selection := ResolveForSelection(c);
    selection.Rejected? && selection.terminal
  }

  function Explain(c: Candidate, host: Host, blocked: bool): WhyStatus {
    match ResolveForSelection(c)
    case Rejected(status, _) => if status.FailedAttempt? then WhyFailed else WhySkip(status)
    case Chosen(plan) =>
      if c.verification == Verified(Satisfied) then WhyAlready
      else if c.verification !in {Verified(Absent), Verified(Drifted)} then WhyFailed
      else if !c.probe.Declared? then WhyFailed
      else if !Obtainable(c, host) then WhySkip(SkipUnavailable)
      else if blocked then WhyBlocked
      else WhyWouldInstall
  }

  /** The explanation of `cs[i]`, given all of `cs`. */
  function ExplainAt(cs: seq<Candidate>, host: Host, i: nat): Explained
    requires i < |cs|
  {
    Explained(cs[i].id, Explain(cs[i], host, exists j :: 0 <= j < i && TerminalRejection(cs[j])))
  }

  /** The declared candidates that the policy leaves out, in order. */
  function Unselected(declared: seq<Candidate>, cs: seq<Candidate>): seq<Explained> {
    if declared == [] then []
    else (if declared[0] in cs then [] else [Explained(declared[0].id, WhyPolicy)]) + Unselected(declared[1..], cs)
  }

  /** Exactly the declared candidates that were not selected are listed. */
  lemma {:induction false} UnselectedAreListed(declared: seq<Candidate>, cs: seq<Candidate>, e: Explained)
    ensures e in Unselected(declared, cs)
            <==> e.status == WhyPolicy && exists d <- declared :: d !in cs && d.id == e.candidate
    decreases |declared|
  {
    if declared != [] {
      UnselectedAreListed(declared[1..], cs, e);
      assert forall d <- declared :: d == declared[0] || d in declared[1..];
      assert declared[0] in declared && forall d <- declared[1..] :: d in declared;
    }
  }

  /** One by one, in their order. */
  lemma {:induction false} UnselectedInOrder(declared: seq<Candidate>, cs: seq<Candidate>, d: Candidate)
    ensures Unselected(declared + [d], cs)
            == Unselected(declared, cs) + if d in cs then [] else [Explained(d.id, WhyPolicy)]
    decreases |declared|
  {
    if declared == [] {
      assert [] + [d] == [d] && [d][1..] == [];
    } else {
      assert (declared + [d])[1..] == declared[1..] + [d];
      UnselectedInOrder(declared[1..], cs, d);
    }
  }

  /** `why` for a tool with methods: the selected candidates in install order, then, under
      `method_only`, the declared ones that were not selected. */
  method ExplainTool(cs: seq<Candidate>, declared: seq<Candidate>, exclusive: bool, host: Host)
      returns (attempts: seq<Explained>)
    ensures |attempts| >= |cs| && forall i :: 0 <= i < |cs| ==> attempts[i] == ExplainAt(cs, host, i)
    ensures attempts[|cs|..] == if exclusive then Unselected(declared, cs) else []
  {
    attempts := [];
    var blocked := false;
    for i := 0 to |cs|
      invariant |attempts| == i && blocked == exists j :: 0 <= j < i && TerminalRejection(cs[j])
      invariant forall j :: 0 <= j < i ==> attempts[j] == ExplainAt(cs, host, j)
    {
      var c := cs[i];
      var selection := ResolveForSelection(c);
      var status: WhyStatus;
      if selection.Rejected? {
        status := if selection.status.FailedAttempt? then WhyFailed else WhySkip(selection.status);
        if !blocked && selection.terminal {
          blocked := true;
        }
      } else {
        match c.verification {
          case VerifyError => status := WhyFailed;
          case Verified(state) =>
            if state.Satisfied? {
              status := WhyAlready;
            } else if state.Unknown? || state.Broken? {
              status := WhyFailed;
            } else if !c.probe.Declared? {
              status := WhyFailed;
            } else if MissingFrom(c.probe.sources, host.sources) == [] && !c.indexed {
              status := WhySkip(SkipUnavailable);
            } else {
              status := if blocked then WhyBlocked else WhyWouldInstall;
            }
        }
      }
      attempts := attempts + [Explained(c.id, status)];
    }
    if exclusive {
      attempts := AppendUnselected(attempts, declared, cs);
    }
  }

  method AppendUnselected(attempts: seq<Explained>, declared: seq<Candidate>, cs: seq<Candidate>)
      returns (all: seq<Explained>)
    ensures all == attempts + Unselected(declared, cs)
  {
    all := attempts;
    for i := 0 to |declared|
      invariant all + Unselected(declared[i..], cs) == attempts + Unselected(declared, cs)
    {
      assert declared[i..][1..] == declared[i + 1..];
      if declared[i] !in cs {
        all := all + [Explained(declared[i].id, WhyPolicy)];
      }
    }
  }

  // ----- the serial selection in dry-run -----

  const DryRun := Config(true, false, true)

  /** Where the selection phases of the serial loop end in a dry run: on a candidate that comes
      through, on a terminal error, or nowhere. */
  datatype Walk = Picks(id: nat) | Stops(id: nat) | Exhausts

  function SerialSelection(cs: seq<Candidate>, host: Host): Walk {
    if cs == [] then Exhausts
    else
      match Selected(DryRun, cs[0], Fresh(host, NoResult)).0
      case Proceed => Picks(cs[0].id)
      case FinishTool => Stops(cs[0].id)
      case NextMethod => SerialSelection(cs[1..], host)
  }

  /** The selection phases in dry-run, read off the answers; the host stays as it is. */
  lemma DrySelection(c: Candidate, host: Host, result: ToolResult)
    ensures var (out, x) := Selected(DryRun, c, Fresh(host, result));
            && x.host == host && x.tx.NoTx? && !x.expired
            && (out.Proceed? <==>
                 (ResolveForSelection(c).Chosen? || PlanlessButSound(c)) && Obtainable(c, host))
            && (out.FinishTool? <==> TerminalRejection(c))
            && (out.Proceed? ==> x.result == result && x.transition.NoTransition?
                                 && x.resolved == if c.resolution.Resolved? then Some(c.resolution.plan) else None)
            && (out.NextMethod? ==> x.result.status == result.status)
  {
    var x := Fresh(host, result);
    var (o3, x3) := ResolveConcretePlan(c, x);
    if o3.Proceed? && c.probe.Declared? {
      var (o4, x4) := ProbeSourceAvailability(c, x3);
      assert Prepare(DryRun, c, x4, false) == (x4, PreparationDone);
    }
  }

  /** A candidate without a plan that passes every gate the serial executor applies to it. */
  predicate PlanlessButSound(c: Candidate) {
    && !c.mismatch && c.whenMatches && !c.distributions.Invalid? && !c.distributions.NoneMatches?
    && c.distributions != Materialized(true) && c.adapter.Ready? && c.resolution.NoPlan? && c.hostCompatible
  }

  ghost predicate SameChoice(walk: Walk, outcome: LockOutcome) {
    match walk
    case Picks(id) => outcome.Locked? && outcome.id == id
    case Stops(id) => outcome == LockAborted(id)
    case Exhausts => outcome.NotLocked?
  }

  /** The candidate on which the serial selection ends, if it picks one. */
  function PickedFrom(cs: seq<Candidate>, host: Host): Option<Candidate> {
    if cs == [] then None
    else
      match Selected(DryRun, cs[0], Fresh(host, NoResult)).0
      case Proceed => Some(cs[0])
      case FinishTool => None
      case NextMethod => PickedFrom(cs[1..], host)
  }

  lemma {:induction false} PickedIsListed(cs: seq<Candidate>, host: Host)
    ensures PickedFrom(cs, host).Some? <==> SerialSelection(cs, host).Picks?
    ensures PickedFrom(cs, host).Some? ==>
              PickedFrom(cs, host).value in cs && SerialSelection(cs, host) == Picks(PickedFrom(cs, host).value.id)
  {
    if cs != [] {
      PickedIsListed(cs[1..], host);
    }
  }

  lemma {:induction false} LockedIsListed(cs: seq<Candidate>, host: Host, reported: Option<nat>)
    ensures LockFrom(cs, host, reported).Locked? ==>
              exists c <- cs ::
                c.id == LockFrom(cs, host, reported).id && c.resolution == Resolved(LockFrom(cs, host, reported).plan)
    decreases |cs|
  {
    if cs != [] {
      var c := cs[0];
      LockedIsListed(cs[1..], host, Some(c.id));
      LockedIsListed(cs[1..], host, reported);
      assert c in cs && forall d <- cs[1..] :: d in cs;
    }
  }

  /** Lock and install select alike: they choose the same candidate, stop on the same terminal
      error, or both find none, exactly when the candidate the executor picks carries a plan
      and its source revisions can be recorded. */
  lemma {:induction false} LockSelectsLikeInstall(cs: seq<Candidate>, host: Host, reported: Option<nat>)
    requires CommitBoundary.DistinctIds(cs)
    ensures var picked := PickedFrom(cs, host);
            SameChoice(SerialSelection(cs, host), LockFrom(cs, host, reported))
            <==> (picked.Some? ==> picked.value.resolution.Resolved? && picked.value.revisionsApply)
    decreases |cs|
  {
    if cs != [] {
      var c := cs[0];
      DrySelection(c, host, NoResult);
      if Selected(DryRun, c, Fresh(host, NoResult)).0.NextMethod? {
        LockSelectsLikeInstall(cs[1..], host, Some(c.id));
        LockSelectsLikeInstall(cs[1..], host, reported);
      } else {
        LockedIsListed(cs[1..], host, Some(c.id));
        LockedIsListed(cs[1..], host, reported);
      }
    }
  }

  /** The plan that is locked is the plan the executor resolves for that candidate. */
  lemma LockedPlanIsTheCandidates(cs: seq<Candidate>, host: Host)
    ensures var outcome := LockFrom(cs, host, None);
            outcome.Locked? ==> exists c <- cs :: c.id == outcome.id && c.resolution == Resolved(outcome.plan)
  {
    LockedIsListed(cs, host, None);
  }

  // ----- `why` predicts the dry run -----

  /** After a terminal error `why` marks nothing as installable. */
  lemma NothingInstallableAfterTerminal(cs: seq<Candidate>, host: Host, i: nat, j: nat)
    requires i < j < |cs| && TerminalRejection(cs[i])
    ensures ExplainAt(cs, host, j).status != WhyWouldInstall
  {
    var blocked := exists t :: 0 <= t < j && TerminalRejection(cs[t]);
    assert blocked;
  }

  /** In a dry run a planless candidate is not explained as installable, and installs anyway. */
  predicate Usurps(c: Candidate, host: Host) {
    PlanlessButSound(c) && Obtainable(c, host) && (c.needs ==> c.needsMet)
  }

  predicate PreconditionsHold(c: Candidate) {
    && (c.needs ==> c.needsMet)
    && (c.resolution.Resolved? ==>
         !c.resolution.plan.Before(if c.verification == Verified(Drifted) then Upgrade else Install).Malformed?)
  }

  /** One candidate in a dry run, read off the answers. */
  lemma DryAttempt(c: Candidate, host: Host, result: ToolResult)
    requires !TerminalRejection(c)
    ensures var (out, x) := AttemptMethod(DryRun, c, host, result);
            && x.host == host && !out.Proceed? && !x.expired
            && (Usurps(c, host) ==>
                  out.FinishTool? && x.result.status.WouldInstall? && x.result.candidate == Some(c.id))
            && (!Usurps(c, host) && Explain(c, host, false) !in {WhyAlready, WhyWouldInstall} ==>
                 out.NextMethod? && x.result.status == result.status)
            && (Explain(c, host, false) == WhyWouldInstall ==>
                 (out.FinishTool? && x.result.status.WouldInstall? <==> PreconditionsHold(c))
                 && (out.FinishTool? ==> x.result.candidate == Some(c.id)))
            && (Explain(c, host, false) == WhyAlready ==>
                 if Obtainable(c, host) then
                   out.FinishTool? && x.result.status.Already? && x.result.candidate == Some(c.id)
                 else out.NextMethod? && x.result.status == result.status)
  {
    hide Selected, Mutating;
    DrySelection(c, host, result);
    var (o1, x1) := Selected(DryRun, c, Fresh(host, result));
    if o1.Proceed? {
      var (o2, x2) := GateAlreadyInstalled(c, x1);
      if o2.Proceed? {
        DryMutating(c, x2);
      }
    }
  }

  lemma DryMutating(c: Candidate, x: Attempt)
    requires x.tx.NoTx? && !x.expired
    ensures var (out, x') := Mutating(DryRun, c, x);
            var hooks := if x.resolved.None? then NoHooks else x.resolved.value.Before(x.transition);
            && x'.host == x.host && !out.Proceed? && !x'.expired
            && (out.FinishTool? && x'.result.status.WouldInstall? <==> !hooks.Malformed? && (c.needs ==> c.needsMet))
            && (out.FinishTool? ==> x'.result.candidate == Some(c.id))
            && (out.NextMethod? <==> !hooks.Malformed? && c.needs && !c.needsMet)
            && (out.NextMethod? ==> x'.result.status == x.result.status)
  {
    var (o3, x3) := RunCandidatePreinstall(DryRun, c, x);
    assert Prepare(DryRun, c, x3, true) == (x3, PreparationDone);
  }

  lemma DryTerminal(c: Candidate, host: Host, result: ToolResult)
    requires TerminalRejection(c)
    ensures var (out, x) := AttemptMethod(DryRun, c, host, result);
            out.FinishTool? && x.host == host && x.result.status.Failed? && x.result.candidate == Some(c.id)
  {
    DrySelection(c, host, result);
  }

  /** A dry run changes nothing, and announces an install only for a candidate of the tool. */
  lemma {:induction false} DryRunChangesNothing(cs: seq<Candidate>, host: Host, result: ToolResult)
    requires result.status.Undecided?
    ensures var (host', result') := TryMethods(DryRun, cs, host, result);
            host' == host && (result'.status.WouldInstall? ==> exists c <- cs :: result'.candidate == Some(c.id))
    decreases |cs|
  {
    if cs != [] {
      var c := cs[0];
      if TerminalRejection(c) {
        DryTerminal(c, host, result);
      } else {
        DryAttempt(c, host, result);
      }
      var (out, x) := AttemptMethod(DryRun, c, host, result);
      assert c in cs && forall d <- cs[1..] :: d in cs;
      if out.NextMethod? {
        CommitBoundary.AttemptStatuses(DryRun, c, host, result);
        DryRunChangesNothing(cs[1..], host, x.result);
      }
    }
  }

  /** `why` predicts the dry run: where the first candidate marked installable or installed is
      marked installable, the dry run ends on it, announcing its install, exactly when its
      hook schedule is sound, its prerequisites succeed, no earlier candidate without a plan comes
      through, and the tool's context lasts that long. */
  lemma {:induction false} WhyPredictsDryRun(cs: seq<Candidate>, host: Host, result: ToolResult, k: nat)
    requires CommitBoundary.DistinctIds(cs) && k < |cs| && result.status.Undecided?
    requires forall i :: 0 <= i <= k ==> !TerminalRejection(cs[i])
    requires forall i :: 0 <= i < k ==> Explain(cs[i], host, false) !in {WhyAlready, WhyWouldInstall}
    requires Explain(cs[k], host, false) == WhyWouldInstall
    ensures var (_, result') := TryMethods(DryRun, cs, host, result);
            (result'.status.WouldInstall? && result'.candidate == Some(cs[k].id))
            <==> PreconditionsHold(cs[k])
                 && forall i :: 0 <= i < k ==> !Usurps(cs[i], host) && ContextEnds !in cs[i].faults
    decreases |cs|
  {
    var c := cs[0];
    DryAttempt(c, host, result);
    var (out, x) := AttemptMethod(DryRun, c, host, result);
    if k > 0 {
      if !Usurps(c, host) {
        CommitBoundary.AttemptStatuses(DryRun, c, host, result);
        WhyPredictsDryRun(cs[1..], host, x.result, k - 1);
        assert forall i :: 0 <= i < k - 1 ==> cs[1..][i] == cs[i + 1];
        assert forall i :: 0 < i < k ==> cs[i] == cs[1..][i - 1];
      } else {
        assert cs[0].id != cs[k].id;
      }
    } else if out.NextMethod? {
      CommitBoundary.AttemptStatuses(DryRun, c, host, result);
      DryRunChangesNothing(cs[1..], host, x.result);
    }
  }

  /** The same, from what `why` prints. */
  lemma WhyReportPredictsDryRun(cs: seq<Candidate>, host: Host, k: nat)
    requires CommitBoundary.DistinctIds(cs) && k < |cs|
    requires forall i :: 0 <= i < k ==> ExplainAt(cs, host, i).status !in {WhyAlready, WhyWouldInstall}
    requires ExplainAt(cs, host, k).status == WhyWouldInstall
    ensures var (_, result) := TryMethods(DryRun, cs, host, NoResult);
            (result.status.WouldInstall? && result.candidate == Some(cs[k].id))
            <==> PreconditionsHold(cs[k])
                 && forall i :: 0 <= i < k ==> !Usurps(cs[i], host) && ContextEnds !in cs[i].faults
  {
    hide TryMethods, Explain, TerminalRejection, Usurps, PreconditionsHold, ExplainAt, CommitBoundary.DistinctIds;
    forall i | 0 <= i <= k ensures !TerminalRejection(cs[i]) {
      if i < k && TerminalRejection(cs[i]) {
        NothingInstallableAfterTerminal(cs, host, i, k);
      } else if i == k && TerminalRejection(cs[k]) {
        TerminalIsNotInstallable(cs, host, k);
      }
    }
    forall i | 0 <= i <= k ensures ExplainAt(cs, host, i).status == Explain(cs[i], host, false) {
      ExplainedUnblocked(cs, host, i);
    }
    WhyPredictsDryRun(cs, host, NoResult, k);
  }

  lemma TerminalIsNotInstallable(cs: seq<Candidate>, host: Host, k: nat)
    requires k < |cs| && TerminalRejection(cs[k])
    ensures ExplainAt(cs, host, k).status != WhyWouldInstall
  {
  }

  lemma ExplainedUnblocked(cs: seq<Candidate>, host: Host, i: nat)
    requires i < |cs| && forall j :: 0 <= j < i ==> !TerminalRejection(cs[j])
    ensures ExplainAt(cs, host, i).status == Explain(cs[i], host, false)
  {
  }

  /** Where `why` reports an installed candidate first, the dry run says so too exactly when the
      candidate is also obtainable: the executor looks into the index before it looks at the
      target. */
  lemma {:induction false} InstalledReportNeedsTheIndex(cs: seq<Candidate>, host: Host, result: ToolResult, k: nat)
    requires CommitBoundary.DistinctIds(cs) && k < |cs| && result.status.Undecided?
    requires forall i :: 0 <= i <= k ==> !TerminalRejection(cs[i])
    requires forall i :: 0 <= i < k ==>
               Explain(cs[i], host, false) !in {WhyAlready, WhyWouldInstall} && !Usurps(cs[i], host)
    requires Explain(cs[k], host, false) == WhyAlready
    ensures var (_, result') := TryMethods(DryRun, cs, host, result);
            (result'.status.Already? && result'.candidate == Some(cs[k].id))
            <==> Obtainable(cs[k], host) && forall i :: 0 <= i < k ==> ContextEnds !in cs[i].faults
    decreases |cs|
  {
    var c := cs[0];
    DryAttempt(c, host, result);
    var (out, x) := AttemptMethod(DryRun, c, host, result);
    CommitBoundary.AttemptStatuses(DryRun, c, host, result);
    if k > 0 {
      InstalledReportNeedsTheIndex(cs[1..], host, x.result, k - 1);
    } else if out.NextMethod? {
      AlreadyIsListed(DryRun, cs[1..], host, x.result);
      assert !Lists(cs[1..], Some(c.id)) by { if Lists(cs[1..], Some(c.id)) { ListedHasId(cs[1..], Some(c.id)); } }
    }
  }

  /** What `why` says of a candidate whose target is certainly not there as desired is what the dry run lists
      when it gives the candidate up: the same reason to skip, or a failure. */
  lemma WhyListsLikeDryRun(c: Candidate, host: Host, result: ToolResult)
    requires !c.resolution.NoPlan? && c.verification in {Verified(Absent), Verified(Drifted)}
    requires AttemptMethod(DryRun, c, host, result).0.NextMethod?
    ensures var why := Explain(c, host, false);
            AttemptMethod(DryRun, c, host, result).1.result
            == RunVerdicts.Listed(c, result, if why.WhySkip? then why.status else FailedAttempt)
    ensures Explain(c, host, false).WhySkip? || Explain(c, host, false) in {WhyFailed, WhyWouldInstall}
  {
    RunVerdicts.HandingOverLists(DryRun, c, host, result);
    DryAttempt(c, host, result);
  }

  // ----- batch preflight -----

  /** A tool as the level sees it: whether it declares methods, and the selected ones in order. */
  datatype BatchTool = BatchTool(declares: bool, selected: seq<Candidate>)

  datatype Seed = Seed(candidate: nat, resolution: Resolution)

  datatype Verdict = Batched(candidate: Candidate) | Recorded(candidate: Candidate) | Serial(seed: Option<Seed>)

  datatype BatchCandidate = BatchCandidate(tool: string, candidate: nat, plan: Plan)

  predicate NameChar(ch: char) {
    'a' <= ch <= 'z' || 'A' <= ch <= 'Z' || '0' <= ch <= '9'
  }

  /** The second class of the expression holds the range from `+` to `_`, as written. */
  predicate ValidBatchPkgName(name: string) {
    && name != [] && NameChar(name[0])
    && forall i :: 0 < i < |name| ==> NameChar(name[i]) || '+' <= name[i] <= '_' || name[i] == '.'
  }

  predicate HasSources(c: Candidate) {
    c.probe != Declared([])
  }

  /** The batch preflight of one tool. */
  function BatchVerdict(cfg: Config, cs: seq<Candidate>): Verdict {
    if cs == [] then Serial(None)
    else
      var c := cs[0];
      if !c.whenMatches then BatchVerdict(cfg, cs[1..])
      else if c.distributions.Invalid? then Serial(None)
      else if c.distributions.NoneMatches? then BatchVerdict(cfg, cs[1..])
      else if EffectiveMismatch(c) then Serial(None)
      else if !c.adapter.Ready? then BatchVerdict(cfg, cs[1..])
      else if !c.native || c.needs || HasSources(c) || !cfg.batchCapable then Serial(None)
      else
        var seed := Some(Seed(c.id, c.resolution));
        if !c.resolution.Resolved? || !ValidBatchPkgName(c.resolution.plan.package) then Serial(seed)
        else if !c.hostCompatible || c.verification.VerifyError? then Serial(seed)
        else if c.verification.state.Satisfied? then Recorded(c)
        else if !c.verification.state.Absent? || !c.resolution.plan.installHooks.NoHooks? || !c.indexed then
          Serial(seed)
        else Batched(c)
  }

  /** The capability gate as the batch applies it: to the candidate made concrete for this host. */
  predicate EffectiveMismatch(c: Candidate) {
    if c.distributions.Materialized? then c.distributions.mismatch else c.mismatch
  }

  // What the preflight decides, read off the answers of one candidate.

  predicate PassedOver(c: Candidate) {
    !c.whenMatches || c.distributions.NoneMatches?
    || (!c.distributions.Invalid? && !EffectiveMismatch(c) && !c.adapter.Ready?)
  }

  /** The candidate on which the preflight settles is the first that it does not pass over. */
  predicate Settles(cs: seq<Candidate>, k: nat) {
    k < |cs| && !PassedOver(cs[k]) && forall i :: 0 <= i < k ==> PassedOver(cs[i])
  }

  /** The preflight resolves it: a native candidate with nothing to prepare, where batches exist. */
  predicate Batchable(cfg: Config, c: Candidate) {
    && !c.distributions.Invalid? && !EffectiveMismatch(c)
    && c.native && !c.needs && !HasSources(c) && cfg.batchCapable
  }

  predicate Plannable(c: Candidate) {
    c.resolution.Resolved? && ValidBatchPkgName(c.resolution.plan.package) && c.hostCompatible
  }

  predicate Joins(cfg: Config, c: Candidate) {
    && Batchable(cfg, c) && Plannable(c)
    && c.verification == Verified(Absent) && c.resolution.plan.installHooks.NoHooks? && c.indexed
  }

  predicate FoundInstalled(cfg: Config, c: Candidate) {
    Batchable(cfg, c) && Plannable(c) && c.verification == Verified(Satisfied)
  }

  /** The tool goes into the batch with exactly the plan of the candidate its preflight settles on; is
      recorded; or is left to the serial path, with that candidate's own resolution if it was
      resolved already. */
  ghost predicate Decided(cfg: Config, cs: seq<Candidate>, verdict: Verdict) {
    && (forall k: nat :: Settles(cs, k) ==>
          && (Joins(cfg, cs[k]) <==> verdict.Batched?)
          && (FoundInstalled(cfg, cs[k]) <==> verdict.Recorded?)
          && (!verdict.Serial? ==> verdict.candidate == cs[k])
          && (verdict.Serial? && verdict.seed.Some? <==>
               Batchable(cfg, cs[k]) && !Joins(cfg, cs[k]) && !FoundInstalled(cfg, cs[k]))
          && (verdict.Serial? && verdict.seed.Some? ==> verdict.seed.value == Seed(cs[k].id, cs[k].resolution)))
    && ((forall c <- cs :: PassedOver(c)) ==> verdict == Serial(None))
  }

  lemma {:induction false} VerdictIsDecided(cfg: Config, cs: seq<Candidate>)
    ensures Decided(cfg, cs, BatchVerdict(cfg, cs))
  {
    if cs != [] {
      VerdictIsDecided(cfg, cs[1..]);
      var verdict := BatchVerdict(cfg, cs);
      if PassedOver(cs[0]) {
        assert verdict == BatchVerdict(cfg, cs[1..]);
        forall k: nat | Settles(cs, k) ensures k > 0 && Settles(cs[1..], k - 1) && cs[k] == cs[1..][k - 1] {
          assert k > 0;
          assert forall i :: 0 <= i < k - 1 ==> cs[1..][i] == cs[i + 1];
        }
        assert forall c <- cs[1..] :: c in cs;
      } else {
        assert cs[0] in cs;
        assert forall k: nat | Settles(cs, k) :: k == 0;
      }
    }
  }

  lemma {:induction false} SomeSettles(cs: seq<Candidate>) returns (k: nat)
    requires exists c <- cs :: !PassedOver(c)
    ensures Settles(cs, k)
  {
    if PassedOver(cs[0]) {
      var c :| c in cs && !PassedOver(c);
      assert c in cs[1..];
      var j := SomeSettles(cs[1..]);
      k := j + 1;
      assert forall i :: 0 <= i < j ==> cs[1..][i] == cs[i + 1];
      assert forall i :: 0 < i < k ==> cs[i] == cs[1..][i - 1];
    } else {
      k := 0;
    }
  }

  method PreflightTool(cfg: Config, cs: seq<Candidate>) returns (verdict: Verdict)
    ensures verdict == BatchVerdict(cfg, cs)
    ensures Decided(cfg, cs, verdict)
  {
    VerdictIsDecided(cfg, cs);
    var i := 0;
    while i < |cs|
      invariant 0 <= i <= |cs| && BatchVerdict(cfg, cs) == BatchVerdict(cfg, cs[i..])
    {
      var c := cs[i];
      i := i + 1;
      if !c.whenMatches || c.distributions.NoneMatches? {
        continue;
      }
      if c.distributions.Invalid? || EffectiveMismatch(c) {
        return Serial(None);
      }
      if !c.adapter.Ready? {
        continue;
      }
      if !c.native || c.needs || HasSources(c) || !cfg.batchCapable {
        return Serial(None);
      }
      var seed := Some(Seed(c.id, c.resolution));
      if !c.resolution.Resolved? || !ValidBatchPkgName(c.resolution.plan.package) || !c.hostCompatible {
        return Serial(seed);
      }
      if c.verification.VerifyError? {
        return Serial(seed);
      }
      if c.verification.state.Satisfied? {
        return Recorded(c);
      }
      if !c.verification.state.Absent? || !c.resolution.plan.installHooks.NoHooks? || !c.indexed {
        return Serial(seed);
      }
      return Batched(c);
    }
    return Serial(None);
  }

  function KnownTools(level: seq<string>, tools: map<string, BatchTool>): seq<string> {
    if level == [] then []
    else (if level[0] in tools then [level[0]] else []) + KnownTools(level[1..], tools)
  }

  lemma {:induction false} KnownToolsSnoc(level: seq<string>, tools: map<string, BatchTool>, name: string)
    ensures KnownTools(level + [name], tools) == KnownTools(level, tools) + if name in tools then [name] else []
  {
    if level == [] {
      assert level + [name] == [name];
    } else {
      var first := if level[0] in tools then [level[0]] else [];
      assert (level + [name])[1..] == level[1..] + [name] && (level + [name])[0] == level[0];
      KnownToolsSnoc(level[1..], tools, name);
      Regroup(first, KnownTools(level[1..], tools), if name in tools then [name] else []);
    }
  }

  function BatchNames(candidates: seq<BatchCandidate>): seq<string> {
    seq(|candidates|, i requires 0 <= i < |candidates| => candidates[i].tool)
  }

  /** The verdict on a tool of the schema; a tool without methods goes to the serial path. */
  function ToolVerdict(cfg: Config, tool: BatchTool): Verdict {
    if tool.declares then BatchVerdict(cfg, tool.selected) else Serial(None)
  }

  /** Every entry of the three lists and of the seeds agrees with the verdict on its tool. */
  ghost predicate Faithful(cfg: Config, tools: map<string, BatchTool>, candidates: seq<BatchCandidate>,
                           remaining: seq<string>, recorded: seq<string>, resolutions: map<string, Seed>) {
    && (forall b <- candidates :: b.tool in tools && FaithfulEntry(ToolVerdict(cfg, tools[b.tool]), b))
    && (forall t <- remaining :: t in tools && ToolVerdict(cfg, tools[t]).Serial?)
    && (forall t <- recorded :: t in tools && ToolVerdict(cfg, tools[t]).Recorded?)
    && (forall t <- resolutions :: t in tools && ToolVerdict(cfg, tools[t]) == Serial(Some(resolutions[t])))
    && (forall t <- remaining :: ToolVerdict(cfg, tools[t]).seed.Some? ==> t in resolutions)
  }

  /** The seed is the resolution of the candidate that settles the preflight, under its name. */
  ghost predicate OwnSeed(cs: seq<Candidate>, seed: Seed) {
    exists k: nat :: Settles(cs, k) && seed == Seed(cs[k].id, cs[k].resolution)
  }

  ghost predicate SettlesOn(tool: BatchTool, accepts: Candidate -> bool) {
    tool.declares && exists k: nat :: Settles(tool.selected, k) && accepts(tool.selected[k])
  }

  /** Where every tool of the level lands, read off the answers of its candidates. */
  ghost predicate LandsByAnswers(cfg: Config, tools: map<string, BatchTool>, candidates: seq<BatchCandidate>,
                                 remaining: seq<string>, recorded: seq<string>, resolutions: map<string, Seed>) {
    && (forall b <- candidates :: b.tool in tools && SettlesOn(tools[b.tool], c =>
          Joins(cfg, c) && b.candidate == c.id && c.resolution == Resolved(b.plan)))
    && (forall t <- recorded :: t in tools && SettlesOn(tools[t], c => FoundInstalled(cfg, c)))
    && (forall t <- remaining ::
          && t in tools
          && !SettlesOn(tools[t], c => Joins(cfg, c) || FoundInstalled(cfg, c))
          && (t in resolutions <==> SettlesOn(tools[t], c => Batchable(cfg, c))))
    && (forall t <- resolutions :: t in tools && tools[t].declares && OwnSeed(tools[t].selected, resolutions[t]))
  }

  lemma VerdictSettles(cfg: Config, tool: BatchTool) returns (k: nat)
    requires ToolVerdict(cfg, tool) != Serial(None)
    ensures tool.declares && Settles(tool.selected, k)
  {
    VerdictIsDecided(cfg, tool.selected);
    k := SomeSettles(tool.selected);
  }

  lemma LandsAsDecided(cfg: Config, tools: map<string, BatchTool>, candidates: seq<BatchCandidate>,
                       remaining: seq<string>, recorded: seq<string>, resolutions: map<string, Seed>)
    requires Faithful(cfg, tools, candidates, remaining, recorded, resolutions)
    ensures LandsByAnswers(cfg, tools, candidates, remaining, recorded, resolutions)
  {
    hide BatchVerdict, Settles, Joins, FoundInstalled, Batchable;
    forall b <- candidates
      ensures SettlesOn(tools[b.tool], c => Joins(cfg, c) && b.candidate == c.id && c.resolution == Resolved(b.plan))
    {
      VerdictIsDecided(cfg, tools[b.tool].selected);
      var k := VerdictSettles(cfg, tools[b.tool]);
    }
    forall t <- recorded ensures SettlesOn(tools[t], c => FoundInstalled(cfg, c)) {
      VerdictIsDecided(cfg, tools[t].selected);
      var k := VerdictSettles(cfg, tools[t]);
    }
    forall t <- resolutions ensures tools[t].declares && OwnSeed(tools[t].selected, resolutions[t]) {
      VerdictIsDecided(cfg, tools[t].selected);
      var k := VerdictSettles(cfg, tools[t]);
    }
    forall t <- remaining
      ensures !SettlesOn(tools[t], c => Joins(cfg, c) || FoundInstalled(cfg, c))
      ensures t in resolutions <==> SettlesOn(tools[t], c => Batchable(cfg, c))
    {
      VerdictIsDecided(cfg, tools[t].selected);
      if ToolVerdict(cfg, tools[t]).seed.Some? { var k := VerdictSettles(cfg, tools[t]); }
    }
  }

  ghost predicate FaithfulEntry(verdict: Verdict, entry: BatchCandidate) {
    verdict.Batched? && verdict.candidate.id == entry.candidate && verdict.candidate.resolution == Resolved(entry.plan)
  }

  /** Every known tool of the level lands in exactly one of the three lists. */
  ghost predicate Partition(level: seq<string>, tools: map<string, BatchTool>, candidates: seq<BatchCandidate>,
                            remaining: seq<string>, recorded: seq<string>) {
    multiset(BatchNames(candidates)) + multiset(remaining) + multiset(recorded) == multiset(KnownTools(level, tools))
  }

  lemma PartitionGrows(level: seq<string>, tools: map<string, BatchTool>, candidates: seq<BatchCandidate>,
                       remaining: seq<string>, recorded: seq<string>, name: string, entry: BatchCandidate)
    requires Partition(level, tools, candidates, remaining, recorded) && entry.tool == name
    ensures name !in tools ==> Partition(level + [name], tools, candidates, remaining, recorded)
    ensures name in tools ==> Partition(level + [name], tools, candidates + [entry], remaining, recorded)
    ensures name in tools ==> Partition(level + [name], tools, candidates, remaining + [name], recorded)
    ensures name in tools ==> Partition(level + [name], tools, candidates, remaining, recorded + [name])
  {
    KnownToolsSnoc(level, tools, name);
    if name in tools {
      assert BatchNames(candidates + [entry]) == BatchNames(candidates) + [name];
      MultisetSnoc(BatchNames(candidates), name);
      MultisetSnoc(remaining, name);
      MultisetSnoc(recorded, name);
      MultisetSnoc(KnownTools(level, tools), name);
    }
  }

  lemma NothingPartitioned(tools: map<string, BatchTool>)
    ensures Partition([], tools, [], [], [])
  {
  }

  lemma MultisetSnoc(xs: seq<string>, x: string)
    ensures multiset(xs + [x]) == multiset(xs) + multiset{x}
  {
  }

  /** Splits a level: the candidates of the batch, the tools left to the serial path, and the
      tools recorded as installed already. Every known tool of the level lands in exactly one. */
  method IdentifyBatchCandidates(cfg: Config, level: seq<string>, tools: map<string, BatchTool>)
      returns (candidates: seq<BatchCandidate>, remaining: seq<string>, recorded: seq<string>,
               resolutions: map<string, Seed>)
    ensures Partition(level, tools, candidates, remaining, recorded)
    ensures Faithful(cfg, tools, candidates, remaining, recorded, resolutions)
    ensures LandsByAnswers(cfg, tools, candidates, remaining, recorded, resolutions)
  {
    hide Decided, LandsByAnswers, Partition, BatchVerdict;
    candidates, remaining, recorded, resolutions := [], [], [], map[];
    assert Partition([], tools, candidates, remaining, recorded) by { NothingPartitioned(tools); }
    for i := 0 to |level|
      invariant Partition(level[..i], tools, candidates, remaining, recorded)
      invariant Faithful(cfg, tools, candidates, remaining, recorded, resolutions)
    {
      var name := level[i];
      assert level[..i + 1] == level[..i] + [name];
      if name !in tools {
        PartitionGrows(level[..i], tools, candidates, remaining, recorded, name,
                       BatchCandidate(name, 0, Plan("", NoHooks, NoHooks)));
        continue;
      }
      var verdict := Serial(None);
      if tools[name].declares {
        verdict := PreflightTool(cfg, tools[name].selected);
      }
      assert verdict == ToolVerdict(cfg, tools[name]);
      match verdict {
        case Batched(c) =>
          BatchedHasPlan(cfg, tools[name].selected);
          var entry := BatchCandidate(name, c.id, c.resolution.plan);
          PartitionGrows(level[..i], tools, candidates, remaining, recorded, name, entry);
          candidates := candidates + [entry];
        case Recorded(c) =>
          PartitionGrows(level[..i], tools, candidates, remaining, recorded, name,
                         BatchCandidate(name, c.id, Plan("", NoHooks, NoHooks)));
          recorded := recorded + [name];
        case Serial(seed) =>
          PartitionGrows(level[..i], tools, candidates, remaining, recorded, name,
                         BatchCandidate(name, 0, Plan("", NoHooks, NoHooks)));
          remaining := remaining + [name];
          if seed.Some? {
            resolutions := resolutions[name := seed.value];
          }
      }
    }
    assert level[..|level|] == level;
    LandsAsDecided(cfg, tools, candidates, remaining, recorded, resolutions);
  }

  lemma {:induction false} BatchedHasPlan(cfg: Config, cs: seq<Candidate>)
    ensures BatchVerdict(cfg, cs).Batched? ==> BatchVerdict(cfg, cs).candidate.resolution.Resolved?
  {
    if cs != [] {
      BatchedHasPlan(cfg, cs[1..]);
    }
  }

  /** What the serial loop brings to the install phase first, if anything. */
  function BroughtToInstall(cfg: Config, cs: seq<Candidate>, host: Host,
                            result: ToolResult): Option<(Candidate, Attempt)> {
    if cs == [] then None
    else
      var c := cs[0];
      var (o1, x1) := Selected(cfg, c, Fresh(host, result));
      var (o2, x2) := if o1.Proceed? then GateAlreadyInstalled(c, x1) else (o1, x1);
      var (o3, x3) := if o2.Proceed? then RunCandidatePreinstall(cfg, c, x2) else (o2, x2);
      var (o4, x4) := if o3.Proceed? then RequireMethodPrerequisites(cfg, c, x3) else (o3, x3);
      match o4
      case Proceed => Some((c, x4))
      case FinishTool => None
      case NextMethod => if Expires(c, x4) then None else BroughtToInstall(cfg, cs[1..], x4.host, x4.result)
  }

  /** Only the kind that takes its assets from a release page may declare distributions; a manifest that gives
      them to another kind is refused when it is parsed. Native kinds are other kinds. */
  predicate NativeIsOrdinary(cs: seq<Candidate>) {
    forall c <- cs :: c.native ==> c.distributions.Ordinary?
  }

  /** The context of the tool lasts until `c` is attempted. */
  predicate LastsUntil(cs: seq<Candidate>, c: Candidate) {
    cs != [] && (cs[0] == c || (ContextEnds !in cs[0].faults && LastsUntil(cs[1..], c)))
  }

  /** A candidate the batch passes over is given up by the serial loop too, without a trace on
      the host. */
  lemma PassedOverAlike(cfg: Config, c: Candidate, host: Host, result: ToolResult)
    requires !c.whenMatches || c.distributions.NoneMatches? || (!c.distributions.Invalid? && !c.adapter.Ready?)
    ensures var (out, x) := Selected(cfg, c, Fresh(host, result)); out.NextMethod? && x.host == host && !x.expired
  {
  }

  /** A candidate with nothing to prepare, to hook or to require goes straight through. */
  lemma PlainCandidateGoesThrough(cfg: Config, c: Candidate, host: Host, result: ToolResult)
    requires !cfg.prerequisite && !c.mismatch && c.whenMatches && c.adapter.Ready? && c.hostCompatible
    requires c.distributions in {Ordinary, Materialized(false)}
    requires c.resolution.Resolved? && !HasSources(c) && c.indexed
    ensures var (out, x) := Selected(cfg, c, Fresh(host, result));
            out.Proceed? && x == Fresh(host, result).(resolved := Some(c.resolution.plan))
  {
    var (o3, x3) := ResolveConcretePlan(c, Fresh(host, result));
    var (o4, x4) := ProbeSourceAvailability(c, x3);
    assert x4.missing == [];
  }

  lemma VerdictOnFirst(cfg: Config, cs: seq<Candidate>)
    requires cs != [] && !BatchVerdict(cfg, cs).Serial? && NativeIsOrdinary(cs)
    ensures if PassedOver(cs[0]) then BatchVerdict(cfg, cs) == BatchVerdict(cfg, cs[1..]) && NativeIsOrdinary(cs[1..])
            else
              var c := cs[0];
              && BatchVerdict(cfg, cs).candidate == c
              && !c.mismatch && c.whenMatches && c.distributions.Ordinary? && c.adapter.Ready? && c.hostCompatible
              && c.resolution.Resolved? && !HasSources(c) && !c.needs
              && (BatchVerdict(cfg, cs).Batched? ==>
                   c.indexed && c.verification == Verified(Absent) && c.resolution.plan.installHooks.NoHooks?)
              && (BatchVerdict(cfg, cs).Recorded? ==> c.verification == Verified(Satisfied))
  {
    assert cs[0] in cs && forall c <- cs[1..] :: c in cs;
  }

  /** Batch refines serial: the tool put into the batch with candidate and plan is the one the
      serial loop would bring to its install phase, with an install transition, no hook run, no
      transaction and no prerequisite, on an unchanged host, exactly when the context of the tool
      lasts until then. */
  lemma {:induction false} BatchRefinesSerial(cfg: Config, cs: seq<Candidate>, host: Host, result: ToolResult)
    requires !cfg.prerequisite && BatchVerdict(cfg, cs).Batched? && NativeIsOrdinary(cs)
    ensures var c := BatchVerdict(cfg, cs).candidate;
            var brought := BroughtToInstall(cfg, cs, host, result);
            c in cs && c.resolution.Resolved?
            && (brought.Some? <==> LastsUntil(cs, c))
            && (brought.Some? ==>
                 var x := brought.value.1;
                 brought.value.0 == c && x.transition.Install? && x.resolved == Some(c.resolution.plan)
                 && x.tx.NoTx? && !x.preHookRan && x.host == host)
    decreases |cs|
  {
    hide Selected, BatchVerdict;
    NotPassedOver(cfg, cs);
    var c := cs[0];
    VerdictOnFirst(cfg, cs);
    if PassedOver(c) {
      PassedOverAlike(cfg, c, host, result);
      var (out, x) := Selected(cfg, c, Fresh(host, result));
      BatchRefinesSerial(cfg, cs[1..], host, x.result);
    } else {
      PlainCandidateGoesThrough(cfg, c, host, result);
    }
  }

  lemma {:induction false} NotPassedOver(cfg: Config, cs: seq<Candidate>)
    requires !BatchVerdict(cfg, cs).Serial?
    ensures BatchVerdict(cfg, cs).candidate in cs && !PassedOver(BatchVerdict(cfg, cs).candidate)
    decreases |cs|
  {
    if BatchVerdict(cfg, cs) == BatchVerdict(cfg, cs[1..]) { NotPassedOver(cfg, cs[1..]); }
  }

  // ----- the serial run behind a preflight -----

  /** One candidate through all phases, with a resolution made before if it is this candidate's. */
  function AttemptSeeded(cfg: Config, c: Candidate, host: Host, result: ToolResult, seed: Seed): (Outcome, Attempt) {
    var (o1, x1) := GateStaticIntent(c, Fresh(host, result));
    if !o1.Proceed? then (o1, x1) else
    var (o2, x2) := GateAdapterAvailable(c, x1);
    if !o2.Proceed? then (o2, x2) else
    var (o3, x3) := ResolveFrom(c, x2, if seed.candidate == c.id then seed.resolution else c.resolution);
    if !o3.Proceed? then (o3, x3) else
    var (o4, x4) := SelectCandidate(cfg, c, x3);
    if !o4.Proceed? then (o4, x4) else
    var (o5, x5) := GateAlreadyInstalled(c, x4);
    if !o5.Proceed? then (o5, x5) else
    Mutating(cfg, c, x5)
  }

  function TryMethodsSeeded(cfg: Config, cs: seq<Candidate>, host: Host, result: ToolResult,
                            seed: Seed): (Host, ToolResult) {
    if cs == [] then (host, Exhausted(result))
    else
      var (out, x) := AttemptSeeded(cfg, cs[0], host, result, seed);
      if out.FinishTool? then
        (x.host, if x.result.status.Failed? && Expires(cs[0], x) then ContextFailed(x.result) else x.result)
      else if Expires(cs[0], x) then (x.host, ContextFailed(x.result))
      else TryMethodsSeeded(cfg, cs[1..], x.host, x.result, seed)
  }

  lemma {:induction false} SeededAlike(cfg: Config, cs: seq<Candidate>, host: Host, result: ToolResult, seed: Seed)
    requires forall c <- cs :: c.id == seed.candidate ==> c.resolution == seed.resolution
    ensures TryMethodsSeeded(cfg, cs, host, result, seed) == TryMethods(cfg, cs, host, result)
    decreases |cs|
  {
    if cs != [] {
      var c := cs[0];
      assert c in cs && forall d <- cs[1..] :: d in cs;
      assert AttemptSeeded(cfg, c, host, result, seed) == AttemptMethod(cfg, c, host, result) by {
        hide GateStaticIntent, GateAdapterAvailable, ResolveFrom, SelectCandidate, GateAlreadyInstalled, Mutating;
      }
      hide AttemptSeeded, AttemptMethod;
      var (out, x) := AttemptMethod(cfg, c, host, result);
      SeededAlike(cfg, cs[1..], x.host, x.result, seed);
    }
  }

  /** A serial run that takes over the preflight's resolution is the run that resolves by itself. */
  lemma SeededRunIsTheRun(cfg: Config, cs: seq<Candidate>, host: Host, result: ToolResult, seed: Seed)
    requires OwnSeed(cs, seed) && CommitBoundary.DistinctIds(cs)
    ensures TryMethodsSeeded(cfg, cs, host, result, seed) == TryMethods(cfg, cs, host, result)
  {
    var k: nat :| Settles(cs, k) && seed == Seed(cs[k].id, cs[k].resolution);
    forall c <- cs | c.id == seed.candidate ensures c.resolution == seed.resolution {
      var i :| 0 <= i < |cs| && cs[i] == c;
      assert i == k;
    }
    SeededAlike(cfg, cs, host, result, seed);
  }

  /** A batch that falls back to the serial path hands over its own entries as seeds. */
  lemma EntryIsOwnSeed(cfg: Config, tools: map<string, BatchTool>, candidates: seq<BatchCandidate>,
                       remaining: seq<string>, recorded: seq<string>, resolutions: map<string, Seed>, b: BatchCandidate)
    requires LandsByAnswers(cfg, tools, candidates, remaining, recorded, resolutions) && b in candidates
    ensures OwnSeed(tools[b.tool].selected, Seed(b.candidate, Resolved(b.plan)))
  {
    var cs := tools[b.tool].selected;
    var k: nat :| Settles(cs, k) && b.candidate == cs[k].id && cs[k].resolution == Resolved(b.plan);
  }

  /** A tool recorded as installed by the batch is reported the same by the serial loop exactly
      when its candidate is in the index, and the context of the tool lasts until then. */
  lemma {:induction false} RecordedAgreesIffIndexed(cfg: Config, cs: seq<Candidate>, host: Host, result: ToolResult)
    requires !cfg.prerequisite && BatchVerdict(cfg, cs).Recorded? && NativeIsOrdinary(cs)
             && CommitBoundary.DistinctIds(cs)
    requires result.status.Undecided?
    ensures var c := BatchVerdict(cfg, cs).candidate;
            var (host', result') := TryMethods(cfg, cs, host, result);
            && c in cs
            && ((result'.status.Already? && result'.candidate == Some(c.id)) <==> (c.indexed && LastsUntil(cs, c)))
    decreases |cs|
  {
    hide AttemptMethod, BatchVerdict;
    NotPassedOver(cfg, cs);
    var c := cs[0];
    VerdictOnFirst(cfg, cs);
    CommitBoundary.AttemptStatuses(cfg, c, host, result);
    var (out, x) := AttemptMethod(cfg, c, host, result);
    if PassedOver(c) {
      PassedOverAttempt(cfg, c, host, result);
      if !Expires(c, x) {
        RecordedAgreesIffIndexed(cfg, cs[1..], host, x.result);
      }
    } else {
      SatisfiedAttempt(cfg, c, host, result);
      if !c.indexed && !Expires(c, x) {
        AlreadyIsListed(cfg, cs[1..], x.host, x.result);
        assert !Lists(cs[1..], Some(c.id)) by { if Lists(cs[1..], Some(c.id)) { ListedHasId(cs[1..], Some(c.id)); } }
      }
    }
  }

  lemma PassedOverAttempt(cfg: Config, c: Candidate, host: Host, result: ToolResult)
    requires PassedOver(c)
    ensures var (out, x) := AttemptMethod(cfg, c, host, result);
            out.NextMethod? && x.host == host && !x.expired && x == Selected(cfg, c, Fresh(host, result)).1
  {
    PassedOverAlike(cfg, c, host, result);
  }

  /** An installed candidate without sources: reported if it is indexed, passed over if not. */
  lemma SatisfiedAttempt(cfg: Config, c: Candidate, host: Host, result: ToolResult)
    requires !cfg.prerequisite && !c.mismatch && c.whenMatches && c.adapter.Ready? && c.hostCompatible
    requires c.distributions.Ordinary? && c.resolution.Resolved? && !HasSources(c)
             && c.verification == Verified(Satisfied)
    ensures var (out, x) := AttemptMethod(cfg, c, host, result);
            && (c.indexed ==> out.FinishTool? && x.result.status.Already? && x.result.candidate == Some(c.id))
            && (!c.indexed ==> out.NextMethod? && x.host == host)
  {
    if c.indexed { PlainCandidateGoesThrough(cfg, c, host, result); }
  }

  /** Only a candidate of the tool is ever reported as installed. */
  lemma {:induction false} AlreadyIsListed(cfg: Config, cs: seq<Candidate>, host: Host, result: ToolResult)
    requires result.status.Undecided?
    ensures var (_, result') := TryMethods(cfg, cs, host, result);
            result'.status.Already? ==> Lists(cs, result'.candidate)
    decreases |cs|
  {
    hide AttemptMethod;
    if cs != [] {
      CommitBoundary.AttemptStatuses(cfg, cs[0], host, result);
      var (out, x) := AttemptMethod(cfg, cs[0], host, result);
      if out.NextMethod? {
        AlreadyIsListed(cfg, cs[1..], x.host, x.result);
      }
    }
  }

  predicate Lists(cs: seq<Candidate>, id: Option<nat>) {
    cs != [] && (id == Some(cs[0].id) || Lists(cs[1..], id))
  }

  lemma {:induction false} ListedHasId(cs: seq<Candidate>, id: Option<nat>)
    requires Lists(cs, id)
    ensures exists i :: 0 <= i < |cs| && id == Some(cs[i].id)
  {
    if id != Some(cs[0].id) {
      ListedHasId(cs[1..], id);
      var i :| 0 <= i < |cs[1..]| && id == Some(cs[1..][i].id);
      assert cs[i + 1].id == cs[1..][i].id;
    }
  }

  // ----- inputs -----

  const BareHost := Host({}, {}, false, map[], false)

  /** A native candidate without sources. */
  function Plainly(id: nat, resolution: Resolution, indexed: bool, verification: Verification): Candidate {
    Candidate(id, true, false, true, Ordinary, Ready, resolution, true, Declared([]), indexed, indexed, true,
              verification, false, true, false, true, Installs(Verified(Satisfied)), Uncertain, {})
  }

  const SomePlan := Plan("tool", NoHooks, NoHooks)

  /** Installed, but no longer in the index: `why` and the batch say installed, the executor passes over. */
  lemma InstalledNotIndexedExample()
    ensures var cs := [Plainly(0, Resolved(SomePlan), false, Verified(Satisfied))];
            && ExplainAt(cs, BareHost, 0).status == WhyAlready
            && BatchVerdict(DryRun, cs).Recorded?
            && TryMethods(DryRun, cs, BareHost, NoResult).1.status.SkippedUnavailable?
            && TryMethods(Config(false, false, true), cs, BareHost, NoResult).1.status.SkippedUnavailable?
  {
    var c := Plainly(0, Resolved(SomePlan), false, Verified(Satisfied));
    assert [c][1..] == [];
  }

  /** Planning succeeds without a plan: the executor installs, `why` says failed and nothing is locked. */
  lemma PlanlessExample()
    ensures var cs := [Plainly(0, NoPlan, true, Verified(Absent))];
            && ExplainAt(cs, BareHost, 0).status == WhyFailed
            && LockFrom(cs, BareHost, None) == NotLocked(Some(0))
            && SerialSelection(cs, BareHost) == Picks(0)
            && TryMethods(DryRun, cs, BareHost, NoResult).1.status.WouldInstall?
  {
    var c := Plainly(0, NoPlan, true, Verified(Absent));
    assert [c][1..] == [];
  }

  /** The source revisions of the first candidate cannot be recorded: the executor picks it, the lock the next. */
  lemma RevisionExample()
    ensures var c := Plainly(0, Resolved(SomePlan), true, Verified(Absent));
            var cs := [c.(revisionsApply := false), c.(id := 1)];
            SerialSelection(cs, BareHost) == Picks(0) && LockFrom(cs, BareHost, None) == Locked(1, SomePlan)
  {
    var c := Plainly(0, Resolved(SomePlan), true, Verified(Absent));
    assert [c.(revisionsApply := false), c.(id := 1)][1..] == [c.(id := 1)];
  }
}
