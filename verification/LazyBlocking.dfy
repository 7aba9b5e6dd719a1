/**
 What a failed requirement blocks: the body of the dependency that requires it, and the rest of the
 method that requires it.
 */
module LazyBlocking {
  import opened Basics
  import opened LazyDependencies

  /** The requirement is there: installed now or before, announced by a dry run, or nothing to install. */
  predicate Satisfies(outcome: Outcome) {
    outcome.Got? && outcome.result.status in {Installed, Already, WouldInstall, Virtual}
  }

  /** What one answer does to the frame that called for it. */
  lemma AnswerDecides(p: Program, s: State, t: nat, name: Name, outcome: Outcome, c: Choice)
    requires t < |s.workers| && s.workers[t].mode == Return(name, outcome) && !c.Level? && !c.Cancel?
    requires s.workers[t].stack != [] && Pending(s.workers[t].stack[0].pc).Some?
    ensures var top := s.workers[t].stack[0];
            var s' := Step(p, s, t, c).value;
            && Step(p, s, t, c).Some? && s'.handed == s.handed + [Returned(t, top, name, outcome)]
            && s'.workers == s.workers[t := s'.workers[t]] && s'.runs == s.runs && s'.workers[t].mode.Run?
            && |s'.workers[t].stack| == |s.workers[t].stack| && s'.workers[t].stack[1..] == s.workers[t].stack[1..]
            && s'.workers[t].stack[0] == top.(pc := s'.workers[t].stack[0].pc)
            && match top.pc
               case Needs(todo) =>
                 s'.workers[t].stack[0].pc
                 == if Satisfies(outcome) then Needs(todo[1..]) else Closing(ToolResult(top.name, Failed))
               case Body(current, rest) =>
                 s'.workers[t].stack[0].pc == Body(if Satisfies(outcome) then current[1..] else [], rest)
               case Closing(_) => true
  {
  }

  // ----- what was answered on the way -----

  /** Worker `t`, on its way through the requirements of the claimed dependency `n`, got a satisfying
      answer for `d`. */
  ghost predicate NeedMet(s: State, t: nat, n: Name, d: Name) {
    exists r <- s.handed ::
      && r.worker == t && r.caller.name == n && !r.caller.root && r.caller.pc.Needs? && r.name == d
      && Satisfies(r.outcome)
  }

  /** It got one for `d` as a prerequisite of the method under way, with `left` still to call. */
  ghost predicate PrerequisiteMet(s: State, t: nat, f: Frame, left: seq<Name>, rest: seq<seq<Name>>) {
    exists r <- s.handed ::
      && r.worker == t && r.caller == f.(pc := Body(left, rest)) && left != [] && r.name == left[0]
      && Satisfies(r.outcome)
  }

  /** The method under way, and what of it was answered. */
  ghost predicate InMethod(p: Program, s: State, t: nat, f: Frame, current: seq<Name>, rest: seq<seq<Name>>) {
    && f.name in p.tools
    && var candidates := p.tools[f.name].candidates;
    && |rest| <= |candidates| && rest == candidates[|candidates| - |rest|..]
    && (current != [] ==>
         && |rest| < |candidates|
         && var needed := candidates[|candidates| - |rest| - 1];
         && |current| <= |needed| && current == needed[|needed| - |current|..]
         && forall j :: 0 <= j < |needed| - |current| ==> PrerequisiteMet(s, t, f, needed[j..], rest))
  }

  ghost predicate AllNeedsMet(p: Program, s: State, t: nat, n: Name) {
    n in p.tools && forall d <- p.tools[n].needs :: NeedMet(s, t, n, d)
  }

  ghost predicate FrameMet(p: Program, s: State, t: nat, f: Frame) {
    match f.pc
    case Needs(todo) =>
      && f.name in p.tools
      && var needs := p.tools[f.name].needs;
      && |todo| <= |needs| && todo == needs[|needs| - |todo|..]
      && forall j :: 0 <= j < |needs| - |todo| ==> NeedMet(s, t, f.name, needs[j])
    case Body(current, rest) =>
      InMethod(p, s, t, f, current, rest) && (!f.root ==> AllNeedsMet(p, s, t, f.name))
    case Closing(result) =>
      result.tool == f.name && (f.root || result.status.Failed? || AllNeedsMet(p, s, t, f.name))
  }

  /** A settled dependency names itself, and either failed or had everything it requires. */
  ghost predicate DoneMet(p: Program, s: State, n: Name, result: ToolResult) {
    result.tool == n && (result.status.Failed? || exists t: nat :: AllNeedsMet(p, s, t, n))
  }

  /** The claimed dependency `n` has failed, or is about to be settled as failed by worker `t`. */
  ghost predicate Fails(s: State, t: nat, n: Name) {
    || (n in s.runs && s.runs[n].Done? && s.runs[n].result.status.Failed?)
    || (t < |s.workers|
        && exists f <- s.workers[t].stack :: !f.root && f.name == n && f.pc.Closing? && f.pc.result.status.Failed?)
  }

  predicate Refused(r: Returned) {
    r.caller.pc.Needs? && !Satisfies(r.outcome)
  }

  ghost predicate Met(p: Program, s: State) {
    && (forall t :: 0 <= t < |s.workers| ==> forall f <- s.workers[t].stack :: FrameMet(p, s, t, f))
    && (forall n <- s.runs :: s.runs[n].Done? ==> DoneMet(p, s, n, s.runs[n].result))
    && (forall r <- s.handed :: Refused(r) ==> !r.caller.root && Fails(s, r.worker, r.caller.name))
  }

  lemma FrameStays(p: Program, s: State, s': State, t: nat, f: Frame)
    requires FrameMet(p, s, t, f) && forall r <- s.handed :: r in s'.handed
    ensures FrameMet(p, s', t, f)
  {
    assert forall d :: NeedMet(s, t, f.name, d) ==> NeedMet(s', t, f.name, d);
    assert forall left, rest :: PrerequisiteMet(s, t, f, left, rest) ==> PrerequisiteMet(s', t, f, left, rest);
  }

  lemma DoneStays(p: Program, s: State, s': State, n: Name, result: ToolResult)
    requires DoneMet(p, s, n, result) && forall r <- s.handed :: r in s'.handed
    ensures DoneMet(p, s', n, result)
  {
    if !result.status.Failed? {
      var t: nat :| AllNeedsMet(p, s, t, n);
      assert forall d :: NeedMet(s, t, n, d) ==> NeedMet(s', t, n, d);
      assert AllNeedsMet(p, s', t, n);
    }
  }

  /** Settled dependencies stay settled, and a frame of worker `t` that is about to be settled still is, or
      has been. */
  ghost predicate SettlesClosing(s: State, s': State, t: nat) {
    && t < |s.workers| == |s'.workers| && s'.workers == s.workers[t := s'.workers[t]]
    && (forall n <- s.runs :: s.runs[n].Done? ==> n in s'.runs && s'.runs[n] == s.runs[n])
    && (forall f <- s.workers[t].stack :: f.pc.Closing? && !f.root ==>
          f in s'.workers[t].stack || (f.name in s'.runs && s'.runs[f.name] == Done(f.pc.result)))
  }

  lemma FailsStill(s: State, s': State, t: nat, u: nat, n: Name)
    requires SettlesClosing(s, s', t) && Fails(s, u, n)
    ensures Fails(s', u, n)
  {
    if !(n in s.runs && s.runs[n].Done?) {
      assert u != t ==> s'.workers[u] == s.workers[u];
    }
  }

  /** A move of worker `t`, from what holds of its own frames. */
  lemma MetAfterMove(p: Program, s: State, s': State, t: nat)
    requires Met(p, s) && t < |s.workers| == |s'.workers| && s'.workers == s.workers[t := s'.workers[t]]
    requires forall r <- s.handed :: r in s'.handed
    requires forall f <- s'.workers[t].stack :: f in s.workers[t].stack || FrameMet(p, s', t, f)
    requires forall n <- s'.runs :: s'.runs[n].Done? ==>
               (n in s.runs && s.runs[n] == s'.runs[n]) || DoneMet(p, s', n, s'.runs[n].result)
    requires SettlesClosing(s, s', t)
    requires forall r <- s'.handed ::
               || r in s.handed || !Refused(r)
               || (!r.caller.root && Fails(s', r.worker, r.caller.name))
    ensures Met(p, s')
  {
    hide FrameMet, DoneMet, Fails, SettlesClosing;
    forall r <- s'.handed | Refused(r) ensures !r.caller.root && Fails(s', r.worker, r.caller.name) {
      if r in s.handed { FailsStill(s, s', t, r.worker, r.caller.name); }
    }
    forall u, f | 0 <= u < |s'.workers| && f in s'.workers[u].stack ensures FrameMet(p, s', u, f) {
      if f in s.workers[u].stack { FrameStays(p, s, s', u, f); }
    }
    forall n <- s'.runs | s'.runs[n].Done? ensures DoneMet(p, s', n, s'.runs[n].result) {
      if n in s.runs && s.runs[n] == s'.runs[n] { DoneStays(p, s, s', n, s.runs[n].result); }
    }
  }

  /** A step that leaves the stacks, the table and the answers alone. */
  lemma MetQuiet(p: Program, s: State, s': State, t: nat)
    requires Met(p, s) && t < |s.workers| == |s'.workers| && s'.workers == s.workers[t := s'.workers[t]]
    requires s'.workers[t].stack == s.workers[t].stack && s'.runs == s.runs && s'.handed == s.handed
    ensures Met(p, s')
  {
    hide FrameMet, DoneMet, Fails;
    MetAfterMove(p, s, s', t);
  }

  /** Only the innermost frame of worker `t` changed, and was not about to be settled. */
  lemma MetTop(p: Program, s: State, s': State, t: nat)
    requires Met(p, s) && t < |s.workers| == |s'.workers| && s'.workers == s.workers[t := s'.workers[t]]
    requires s.workers[t].stack != [] && !s.workers[t].stack[0].pc.Closing?
    requires s'.workers[t].stack != [] && s'.workers[t].stack[1..] == s.workers[t].stack[1..]
    requires FrameMet(p, s', t, s'.workers[t].stack[0])
    requires s'.runs == s.runs && forall r <- s.handed :: r in s'.handed
    requires forall r <- s'.handed ::
               || r in s.handed || !Refused(r)
               || (!r.caller.root && Fails(s', r.worker, r.caller.name))
    ensures Met(p, s')
  {
    hide FrameMet, DoneMet, Fails;
    var stack, stack' := s.workers[t].stack, s'.workers[t].stack;
    assert stack == [stack[0]] + stack[1..] && stack' == [stack'[0]] + stack'[1..];
    MetAfterMove(p, s, s', t);
  }

  lemma TopMet(p: Program, s: State, t: nat)
    requires Met(p, s) && t < |s.workers| && s.workers[t].stack != []
    ensures FrameMet(p, s, t, s.workers[t].stack[0])
  {
    assert s.workers[t].stack[0] in s.workers[t].stack;
  }

  lemma MetIdle(p: Program, s: State, s': State, t: nat)
    requires Inv(p, s) && Met(p, s) && t < |s.workers| && s.workers[t].mode.Idle? && StepIdle(p, s, t) == Some(s')
    ensures Met(p, s')
  {
    hide Inv;
    Shape(p, s, t);
    assert s.workers[t := s.workers[t]] == s.workers;
    MetAfterMove(p, s, s', t);
  }

  lemma MetCall(p: Program, s: State, s': State, t: nat, name: Name)
    requires Inv(p, s) && Met(p, s) && t < |s.workers| && s.workers[t].mode == Call(name)
    requires StepCall(p, s, t, name) == Some(s')
    ensures Met(p, s')
  {
    hide Inv, DoneMet, Fails;
    if name in p.recovered || name in s.runs {
      MetQuiet(p, s, s', t);
    } else {
      MetAfterMove(p, s, s', t);
    }
  }

  lemma NeedAnswered(p: Program, s: State, s': State, t: nat, f: Frame, todo: seq<Name>, outcome: Outcome)
    requires FrameMet(p, s, t, f) && f.pc == Needs(todo) && !f.root && todo != [] && Satisfies(outcome)
    requires s'.handed == s.handed + [Returned(t, f, todo[0], outcome)]
    ensures FrameMet(p, s', t, f.(pc := Needs(todo[1..])))
  {
    FrameStays(p, s, s', t, f);
    assert Returned(t, f, todo[0], outcome) in s'.handed;
    assert NeedMet(s', t, f.name, todo[0]);
  }

  lemma PrerequisiteAnswered(p: Program, s: State, s': State, t: nat, f: Frame, outcome: Outcome)
    requires FrameMet(p, s, t, f) && f.pc.Body? && f.pc.current != []
    requires s'.handed == s.handed + [Returned(t, f, f.pc.current[0], outcome)]
    ensures FrameMet(p, s', t, f.(pc := Body(if Satisfies(outcome) then f.pc.current[1..] else [], f.pc.rest)))
  {
    FrameStays(p, s, s', t, f);
    assert Returned(t, f, f.pc.current[0], outcome) in s'.handed;
    var f' := f.(pc := Body(f.pc.current[1..], f.pc.rest));
    assert Satisfies(outcome) ==> PrerequisiteMet(s', t, f, f.pc.current, f.pc.rest);
    assert forall left, rest :: PrerequisiteMet(s', t, f, left, rest) ==> PrerequisiteMet(s', t, f', left, rest);
  }

  lemma MetReturn(p: Program, s: State, s': State, t: nat, name: Name, outcome: Outcome)
    requires Inv(p, s) && Met(p, s) && t < |s.workers| && s.workers[t].mode == Return(name, outcome)
    requires StepReturn(s, t, name, outcome) == Some(s')
    ensures Met(p, s')
  {
    hide Inv, Met, FrameMet, StackShape;
    Shape(p, s, t);
    AnswerDecides(p, s, t, name, outcome, Go);
    TopMet(p, s, t);
    var top := s.workers[t].stack[0];
    match top.pc
    case Needs(todo) =>
      if Satisfies(outcome) {
        NeedAnswered(p, s, s', t, top, todo, outcome);
      } else {
        var closed := s'.workers[t].stack[0];
        ClosedFails(p, s', t, closed);
      }
      MetTop(p, s, s', t);
    case Body(current, rest) =>
      PrerequisiteAnswered(p, s, s', t, top, outcome);
      MetTop(p, s, s', t);
    case Closing(_) =>
  }

  lemma ClosedFails(p: Program, s: State, t: nat, f: Frame)
    requires t < |s.workers| && s.workers[t].stack != [] && f == s.workers[t].stack[0]
    requires !f.root && f.pc == Closing(ToolResult(f.name, Failed))
    ensures FrameMet(p, s, t, f) && Fails(s, t, f.name)
  {
  }

  lemma MetClose(p: Program, s: State, s': State, t: nat, result: ToolResult)
    requires Inv(p, s) && Met(p, s) && t < |s.workers| && s.workers[t].mode.Run? && s.workers[t].stack != []
    requires s.workers[t].stack[0].pc == Closing(result)
    requires StepClose(s, t, s.workers[t].stack[0], result) == Some(s')
    ensures Met(p, s')
  {
    hide Inv, Fails, StackShape;
    Shape(p, s, t);
    TopMet(p, s, t);
    var stack := s.workers[t].stack;
    assert stack == [stack[0]] + stack[1..];
    assert stack[0].root || DoneMet(p, s, stack[0].name, result);
    if !stack[0].root { DoneStays(p, s, s', stack[0].name, result); }
    MetAfterMove(p, s, s', t);
  }

  lemma MetRun(p: Program, s: State, s': State, t: nat, c: Choice)
    requires Inv(p, s) && Met(p, s) && t < |s.workers| && s.workers[t].mode.Run? && StepRun(p, s, t, c) == Some(s')
    ensures Met(p, s')
  {
    hide Inv, Met, Fails;
    TopMet(p, s, t);
    var top := s.workers[t].stack[0];
    if Pending(top.pc).Some? {
      MetQuiet(p, s, s', t);
    } else {
      match top.pc
      case Closing(result) => MetClose(p, s, s', t, result);
      case Needs(_) =>
        AllAnswered(p, s, t, top);
        MetNext(p, s, s', t, Body([], ToolOf(p, top.name).candidates));
      case Body(_, rest) =>
        NextInMethod(p, s, t, top, s'.workers[t].stack[0].pc, c);
        MetNext(p, s, s', t, s'.workers[t].stack[0].pc);
    }
  }

  /** The innermost frame goes on by itself. */
  lemma MetNext(p: Program, s: State, s': State, t: nat, pc: Pc)
    requires Met(p, s) && t < |s.workers| && s.workers[t].stack != [] && !s.workers[t].stack[0].pc.Closing?
    requires s' == SetTop(s, t, pc) && FrameMet(p, s, t, s.workers[t].stack[0].(pc := pc))
    ensures Met(p, s')
  {
    hide Met, FrameMet, Fails;
    FrameSame(p, s, s', t, s'.workers[t].stack[0]);
    MetTop(p, s, s', t);
  }

  lemma NextInMethod(p: Program, s: State, t: nat, f: Frame, pc: Pc, c: Choice)
    requires FrameMet(p, s, t, f) && f.pc.Body? && f.pc.current == []
    requires || (c.Finish? && pc == Closing(ToolResult(f.name, c.status)))
             || (f.pc.rest != [] && pc == Body(f.pc.rest[0], f.pc.rest[1..]))
             || (f.pc.rest != [] && pc == Body([], f.pc.rest[1..]))
    ensures FrameMet(p, s, t, f.(pc := pc))
  {
    hide NeedMet, PrerequisiteMet;
  }

  lemma AllAnswered(p: Program, s: State, t: nat, f: Frame)
    requires FrameMet(p, s, t, f) && f.pc == Needs([])
    ensures FrameMet(p, s, t, f.(pc := Body([], ToolOf(p, f.name).candidates)))
  {
    var needs := p.tools[f.name].needs;
    forall d <- needs ensures NeedMet(s, t, f.name, d) {
      var j :| 0 <= j < |needs| && needs[j] == d;
    }
  }

  lemma FrameSame(p: Program, s: State, s': State, t: nat, f: Frame)
    requires FrameMet(p, s, t, f) && s'.handed == s.handed
    ensures FrameMet(p, s', t, f)
  {
    FrameStays(p, s, s', t, f);
  }

  lemma MetKept(p: Program, s: State, s': State)
    requires Inv(p, s) && Met(p, s) && Next(p, s, s')
    ensures Met(p, s')
  {
    var t: nat, c: Choice :| Step(p, s, t, c) == Some(s');
    hide Inv, Met, StepIdle, StepRun, StepCall, StepReturn;
    if c.Level? {
      MetLevel(p, s, s', c.names);
    } else if c.Cancel? {
      MetCancelled(p, s);
    } else {
      match s.workers[t].mode
      case Idle => MetIdle(p, s, s', t);
      case Run => MetRun(p, s, s', t, c);
      case Call(name) => MetCall(p, s, s', t, name);
      case Wait(name) => MetQuiet(p, s, s', t);
      case Return(name, outcome) => MetReturn(p, s, s', t, name, outcome);
      case Exited =>
    }
  }

  lemma MetCancelled(p: Program, s: State)
    requires Met(p, s)
    ensures Met(p, s.(cancelled := true))
  {
    var s' := s.(cancelled := true);
    forall t, f | 0 <= t < |s'.workers| && f in s'.workers[t].stack ensures FrameMet(p, s', t, f) {
      FrameStays(p, s, s', t, f);
    }
    forall n <- s'.runs | s'.runs[n].Done? ensures DoneMet(p, s', n, s'.runs[n].result) {
      DoneStays(p, s, s', n, s.runs[n].result);
    }
  }

  lemma MetLevel(p: Program, s: State, s': State, names: seq<Name>)
    requires Inv(p, s) && Met(p, s) && StepLevel(p, s, names) == Some(s')
    ensures Met(p, s')
  {
    hide Inv;
    forall t | 0 <= t < |s.workers| ensures s.workers[t].stack == [] {
      Shape(p, s, t);
      assert s.workers[t] in s.workers;
    }
    forall n <- s'.runs | s'.runs[n].Done? ensures DoneMet(p, s', n, s'.runs[n].result) {
      DoneStays(p, s, s', n, s.runs[n].result);
    }
  }

  lemma {:induction false} MetHolds(p: Program, levels: seq<seq<Name>>, trace: seq<State>, k: nat)
    requires Execution(p, levels, trace) && k < |trace|
    ensures Met(p, trace[k])
  {
    hide Met, Inv, Next;
    if k > 0 {
      MetHolds(p, levels, trace, k - 1);
      InvHolds(p, levels, trace, k - 1);
      MetKept(p, trace[k - 1], trace[k]);
    } else {
      NothingMet(p, levels);
    }
  }

  lemma NothingMet(p: Program, levels: seq<seq<Name>>)
    ensures Met(p, Start(levels))
  {
  }

  // ----- over every run -----

  /** The body of a claimed dependency runs only behind its requirements: for each of them its owner was
      handed a result that says installed, already there, announced or virtual. */
  lemma BodiesFollowRequirements(p: Program, levels: seq<seq<Name>>, trace: seq<State>, k: nat, t: nat, f: Frame)
    requires Execution(p, levels, trace) && k < |trace| && t < |trace[k].workers| && f in trace[k].workers[t].stack
    requires !f.root && f.pc.Body?
    ensures f.name in p.tools && forall d <- p.tools[f.name].needs :: NeedMet(trace[k], t, f.name, d)
  {
    hide Execution;
    MetHolds(p, levels, trace, k);
    assert FrameMet(p, trace[k], t, f);
  }

  /** Of a method under way, tools of levels included, each prerequisite before the one that is called
      next was answered that way, in order. */
  lemma PrerequisitesInOrder(p: Program, levels: seq<seq<Name>>, trace: seq<State>, k: nat, t: nat, f: Frame)
    requires Execution(p, levels, trace) && k < |trace| && t < |trace[k].workers| && f in trace[k].workers[t].stack
    requires f.pc.Body?
    ensures InMethod(p, trace[k], t, f, f.pc.current, f.pc.rest)
  {
    hide Execution;
    MetHolds(p, levels, trace, k);
    assert FrameMet(p, trace[k], t, f);
  }

  /** A name that is settled with any other result, or failed when its commit was recorded. */
  predicate SettledOtherwise(p: Program, s: State, d: Name) {
    if d in p.recovered then !Satisfies(Got(p.recovered[d]))
    else d in s.runs && s.runs[d].Done? && !Satisfies(Got(s.runs[d].result))
  }

  /** A failed requirement blocks its dependent: a dependency that is not declared, that requires a name
      settled otherwise, or whose owner was refused a requirement, by a result or by a
      cancellation, is settled as failed if at all. Every settled result names its dependency. */
  lemma FailedRequirementBlocks(p: Program, levels: seq<seq<Name>>, trace: seq<State>, k: nat)
    requires Execution(p, levels, trace) && k < |trace|
    ensures var s := trace[k];
            && (forall n <- s.runs :: s.runs[n].Done? ==>
                 && s.runs[n].result.tool == n
                 && ((n !in p.tools || exists d <- p.tools[n].needs :: SettledOtherwise(p, s, d)) ==>
                       s.runs[n].result.status.Failed?))
            && (forall r <- s.handed :: r.caller.pc.Needs? && !Satisfies(r.outcome) ==>
                 !r.caller.root && Fails(s, r.worker, r.caller.name))
  {
    hide Execution;
    MetHolds(p, levels, trace, k);
    SingleFlight(p, levels, trace, k);
    var s := trace[k];
    forall n <- s.runs | s.runs[n].Done? && !s.runs[n].result.status.Failed?
      ensures n in p.tools && forall d <- p.tools[n].needs :: !SettledOtherwise(p, s, d)
    {
      assert DoneMet(p, s, n, s.runs[n].result);
      var t: nat :| AllNeedsMet(p, s, t, n);
      forall d <- p.tools[n].needs ensures !SettledOtherwise(p, s, d) { assert NeedMet(s, t, n, d); }
    }
  }
}
