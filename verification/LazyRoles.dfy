/**
 The two roles of one run: which tools are begun as tools of a level, which as dependencies, and
 which as both.
 */
module LazyRoles {
  import opened Basics
  import opened LazyDependencies
  import opened LazyProgress

  /** A tool that some level lists and whose commit was not reconciled at startup. */
  predicate LevelTool(p: Program, levels: seq<seq<Name>>, n: Name) {
    n in Flat(levels) && n in p.tools && n !in p.recovered
  }

  /** From a tool of a level to a prerequisite of one of its methods, and on along requirements of any
      kind, without a reconciled commit on the way. */
  ghost predicate CallPath(p: Program, levels: seq<seq<Name>>, path: seq<Name>) {
    && |path| > 1 && LevelTool(p, levels, path[0]) && path[1] in Prerequisites(p.tools[path[0]])
    && (forall i :: 1 <= i < |path| ==> path[i] !in p.recovered)
    && (forall i :: 1 < i < |path| ==> Requires(p, path[i - 1], path[i]))
  }

  ghost predicate Called(p: Program, levels: seq<seq<Name>>, n: Name) {
    exists path :: CallPath(p, levels, path) && path[|path| - 1] == n
  }

  // ----- no run claims anything else -----

  /** The outermost frame of every worker is a tool that was begun as a tool of a level. */
  ghost predicate RootsBegun(s: State) {
    forall w <- s.workers :: OuterBegun(s, w.stack)
  }

  predicate OuterBegun(s: State, stack: seq<Frame>) {
    stack != [] ==> stack[|stack| - 1].name in s.roots
  }

  lemma RootsStayBegun(p: Program, s: State, s': State, t: nat, c: Choice)
    requires Inv(p, s) && RootsBegun(s) && Step(p, s, t, c) == Some(s')
    ensures RootsBegun(s')
  {
    hide Step;
    if c.Level? {
      StartedLevel(p, s, s', t, c);
    } else if c.Cancel? {
      assert s' == s.(cancelled := true) by { CancelOnly(p, s, t, c); }
    } else {
      OuterStays(p, s, s', t, c);
      forall w <- s'.workers ensures OuterBegun(s', w.stack) {
        if w !in s.workers { assert w == s'.workers[t]; }
      }
    }
  }

  lemma CancelOnly(p: Program, s: State, t: nat, c: Choice)
    requires c.Cancel? && Step(p, s, t, c).Some?
    ensures Step(p, s, t, c) == Some(s.(cancelled := true))
  {
  }

  lemma BegunOutside(s: State, t: nat)
    requires RootsBegun(s) && t < |s.workers|
    ensures OuterBegun(s, s.workers[t].stack)
  {
    assert s.workers[t] in s.workers;
  }

  lemma OuterStays(p: Program, s: State, s': State, t: nat, c: Choice)
    requires Inv(p, s) && RootsBegun(s) && !c.Level? && !c.Cancel? && Step(p, s, t, c) == Some(s')
    ensures t < |s.workers| == |s'.workers| && s'.workers == s.workers[t := s'.workers[t]]
    ensures s.roots <= s'.roots && OuterBegun(s', s'.workers[t].stack)
  {
    hide RootsBegun, Inv;
    var w := s.workers[t];
    BegunOutside(s, t);
    if w.mode.Idle? {
      assert s.workers[t := w] == s.workers;
    } else {
      InsideCall(p, s, t, c);
      Shape(p, s, t);
      SameOuter(p, s, s', t, c);
    }
  }

  /** Only the frames above the outermost one change inside a call, until it is closed itself. */
  lemma SameOuter(p: Program, s: State, s': State, t: nat, c: Choice)
    requires !c.Level? && !c.Cancel? && Step(p, s, t, c) == Some(s') && t < |s.workers| == |s'.workers|
    requires !s.workers[t].mode.Idle? && s.workers[t].stack != []
    ensures var stack, stack' := s.workers[t].stack, s'.workers[t].stack;
            stack' != [] ==> stack'[|stack'| - 1].name == stack[|stack| - 1].name
  {
    hide StepRun;
    match s.workers[t].mode
    case Run => SameOuterInBody(p, s, s', t, c);
    case Call(name) =>
    case Wait(name) =>
    case Return(name, outcome) =>
  }

  lemma SameOuterInBody(p: Program, s: State, s': State, t: nat, c: Choice)
    requires t < |s.workers| == |s'.workers| && s.workers[t].stack != [] && StepRun(p, s, t, c) == Some(s')
    ensures var stack, stack' := s.workers[t].stack, s'.workers[t].stack;
            stack' != [] ==> stack'[|stack'| - 1].name == stack[|stack| - 1].name
  {
    var top := s.workers[t].stack[0];
    if Pending(top.pc).None? {
      match top.pc
      case Needs(_) =>
      case Body(_, rest) =>
      case Closing(result) =>
    }
  }

  lemma {:induction false} RootsAreLevelTools(p: Program, levels: seq<seq<Name>>, trace: seq<State>, k: nat)
    requires Execution(p, levels, trace) && k < |trace|
    ensures RootsBegun(trace[k])
    ensures forall n <- trace[k].roots :: LevelTool(p, levels, n)
  {
    hide Step, Flat, RootsBegun, Inv;
    var s := trace[k];
    LevelToolsBegunInOrder(p, levels, trace, k);
    AmongAdmitted(p, levels, s);
    NoneBegun(levels);
    if k > 0 {
      RootsAreLevelTools(p, levels, trace, k - 1);
      InvHolds(p, levels, trace, k - 1);
      var t: nat, c: Choice :| Step(p, trace[k - 1], t, c) == Some(s);
      RootsStayBegun(p, trace[k - 1], s, t, c);
    }
  }

  lemma AmongAdmitted(p: Program, levels: seq<seq<Name>>, s: State)
    requires s.roots + Known(p, s.queue) == Known(p, s.admitted) && forall n <- s.admitted :: n !in p.recovered
    requires multiset(s.admitted) + multiset(Flat(s.levels)) <= multiset(Flat(levels))
    ensures forall n <- s.roots :: LevelTool(p, levels, n)
  {
    hide Flat, Known;
    KnownCounts(p, s.admitted);
    forall n <- s.roots ensures LevelTool(p, levels, n) {
      assert n in s.roots + Known(p, s.queue);
      assert n in multiset(Known(p, s.admitted));
      assert n in multiset(s.admitted) + multiset(Flat(s.levels));
      assert n in multiset(Flat(levels));
    }
  }

  lemma NoneBegun(levels: seq<seq<Name>>)
    ensures RootsBegun(Start(levels))
  {
  }

  /** Only a worker that calls an unclaimed name claims anything. */
  lemma NewClaims(p: Program, s: State, s': State, t: nat, c: Choice)
    requires Inv(p, s) && Step(p, s, t, c) == Some(s')
    ensures s'.claims == s.claims
         || (t < |s.workers| && s.workers[t].mode.Call? && s.workers[t].mode.name !in p.recovered
             && s'.claims == s.claims + [s.workers[t].mode.name])
  {
    if !c.Cancel? && !c.Level? {
      match s.workers[t].mode
      case Run => assert WorkerShape(p, s, s.workers[t]);
      case _ =>
    }
  }

  lemma Prolongs(p: Program, levels: seq<seq<Name>>, path: seq<Name>, n: Name)
    requires CallPath(p, levels, path) && path[|path| - 1] in p.tools && n !in p.recovered
    requires n in Edges(p.tools[path[|path| - 1]])
    ensures Called(p, levels, n)
  {
    var longer := path + [n];
    assert CallPath(p, levels, longer) && longer[|longer| - 1] == n;
  }

  lemma Begins(p: Program, levels: seq<seq<Name>>, root: Name, n: Name)
    requires LevelTool(p, levels, root) && n in Prerequisites(p.tools[root]) && n !in p.recovered
    ensures Called(p, levels, n)
  {
    var path := [root, n];
    assert CallPath(p, levels, path) && path[|path| - 1] == n;
  }

  lemma CallerIsCalled(p: Program, levels: seq<seq<Name>>, s: State, t: nat)
    requires Inv(p, s) && RootsBegun(s) && t < |s.workers| && s.workers[t].mode.Call?
    requires forall n <- s.roots :: LevelTool(p, levels, n)
    requires forall n <- s.claims :: Called(p, levels, n)
    ensures var n := s.workers[t].mode.name; n !in p.recovered ==> Called(p, levels, n)
  {
    hide Called, LevelTool, Edges, Prerequisites;
    var n, stack := s.workers[t].mode.name, s.workers[t].stack;
    assert WorkerShape(p, s, s.workers[t]) && OwnedFrames(s, t);
    assert OwnNames(p, stack[0]);
    if n !in p.recovered {
      if stack[0].root {
        assert s.workers[t] in s.workers && stack[0] in stack;
        Begins(p, levels, stack[0].name, n);
      } else {
        assert stack[0].name in s.claims;
        OnwardsCalled(p, levels, stack[0].name, n);
      }
    }
  }

  lemma OnwardsCalled(p: Program, levels: seq<seq<Name>>, caller: Name, n: Name)
    requires Called(p, levels, caller) && caller in p.tools && n !in p.recovered
    requires n in p.tools[caller].needs || n in Prerequisites(p.tools[caller])
    ensures Called(p, levels, n)
  {
    var path :| CallPath(p, levels, path) && path[|path| - 1] == caller;
    Prolongs(p, levels, path, n);
  }

  /** In every run, whatever the requirements look like, only names that a path of calls leads to are
      claimed. */
  lemma {:induction false} ClaimedIsCalled(p: Program, levels: seq<seq<Name>>, trace: seq<State>, k: nat)
    requires Execution(p, levels, trace) && k < |trace|
    ensures forall n <- trace[k].claims :: Called(p, levels, n)
  {
    hide Step, Called, LevelTool, RootsBegun, Inv;
    if k > 0 {
      var s := trace[k - 1];
      ClaimedIsCalled(p, levels, trace, k - 1);
      InvHolds(p, levels, trace, k - 1);
      RootsAreLevelTools(p, levels, trace, k - 1);
      var t: nat, c: Choice :| Step(p, s, t, c) == Some(trace[k]);
      NewClaims(p, s, trace[k], t, c);
      if trace[k].claims != s.claims {
        CallerIsCalled(p, levels, s, t);
      }
    }
  }

  // ----- a run that claims all of it -----

  /** What the sorter accepts: a graph without a cycle in which every requirement is a tool. */
  ghost predicate Accepted(p: Program, edges: map<Name, seq<Name>>) {
    SortedGraph(p, edges) && forall n <- edges :: forall d <- edges[n] :: d in edges
  }

  /** Commits reconciled at startup are recorded as installed. */
  predicate RecoveredInstalled(p: Program) {
    forall n <- p.recovered :: p.recovered[n].status.Installed?
  }

  /** Every requirement is a tool of lower rank. */
  ghost predicate Ranked(p: Program, rank: map<Name, nat>) {
    && rank.Keys == p.tools.Keys
    && forall n <- p.tools :: forall d <- Edges(p.tools[n]) :: d in p.tools && rank[d] < rank[n]
  }

  lemma RankOf(p: Program, edges: map<Name, seq<Name>>) returns (rank: map<Name, nat>)
    requires Accepted(p, edges)
    ensures Ranked(p, rank)
  {
    rank :| Numbering(edges, rank);
    forall n <- p.tools, d <- Edges(p.tools[n]) ensures d in p.tools && rank[d] < rank[n] {
      assert d in edges[n];
    }
  }

  predicate Settled(p: Program, s: State, n: Name) {
    n in p.recovered || (n in s.runs && s.runs[n].Done?)
  }

  /** Every claimed dependency is at work in worker `t`, or succeeded after all its requirements were
      settled. */
  ghost predicate Exhaustive(p: Program, s: State, t: nat) {
    forall n <- s.runs ::
      && n in p.tools
      && (s.runs[n].Running? ==> s.runs[n].owner == t)
      && (s.runs[n].Done? ==>
           DependencySucceeded(s.runs[n].result) && forall d <- Edges(p.tools[n]) :: Settled(p, s, d))
  }

  ghost predicate Path(p: Program, path: seq<State>, s: State, s': State) {
    && path != [] && path[0] == s && path[|path| - 1] == s'
    && forall i :: 0 < i < |path| ==> Next(p, path[i - 1], path[i])
  }

  ghost predicate Leads(p: Program, s: State, s': State) {
    exists path :: Path(p, path, s, s')
  }

  lemma LeadsOn(p: Program, s: State, s': State, s'': State)
    requires Leads(p, s, s') && Leads(p, s', s'')
    ensures Leads(p, s, s'')
  {
    hide Next;
    var a, b :| Path(p, a, s, s') && Path(p, b, s', s'');
    var path := a + b[1..];
    forall i | 0 < i < |path| ensures Next(p, path[i - 1], path[i]) {
      if i >= |a| { assert path[i] == b[i - |a| + 1] && path[i - 1] == b[i - |a|]; }
    }
    assert Path(p, path, s, s'');
  }

  lemma LeadsBy(p: Program, s: State, s': State)
    requires s == s' || Next(p, s, s')
    ensures Leads(p, s, s')
  {
    hide Next;
    assert Path(p, if s == s' then [s] else [s, s'], s, s');
  }

  /** A worker about to go on, with every requirement in reach a tool of lower rank. */
  ghost predicate Walks(p: Program, rank: map<Name, nat>, s: State, t: nat) {
    && Ranked(p, rank) && RecoveredInstalled(p) && Inv(p, s) && t < |s.workers| && Exhaustive(p, s, t)
  }

  /** Worker `t` alone got from `s` to `s'`, inside one level, and unsettled nothing. */
  ghost predicate Walked(p: Program, s: State, s': State, t: nat) {
    && Leads(p, s, s') && SameChannel(s, s')
    && t < |s.workers| && s'.workers == s.workers[t := s'.workers[t]]
    && forall n :: Settled(p, s, n) ==> Settled(p, s', n)
  }

  lemma WalkOn(p: Program, s: State, s': State, s'': State, t: nat)
    requires Walked(p, s, s', t) && Walked(p, s', s'', t)
    ensures Walked(p, s, s'', t)
  {
    hide Leads, Settled;
    LeadsOn(p, s, s', s'');
  }

  lemma StandsStill(p: Program, s: State, t: nat)
    requires t < |s.workers|
    ensures Walked(p, s, s, t)
  {
    LeadsBy(p, s, s);
  }

  predicate At(s: State, t: nat, stack: seq<Frame>, mode: Mode) {
    t < |s.workers| && s.workers[t] == Worker(stack, mode)
  }

  lemma InvStep(p: Program, s: State, s': State, t: nat, c: Choice)
    requires Inv(p, s) && Step(p, s, t, c) == Some(s')
    ensures Inv(p, s') && Leads(p, s, s')
  {
    hide Step, Inv;
    assert Next(p, s, s');
    InvKept(p, s, s');
    LeadsBy(p, s, s');
  }

  /** A step that neither claims nor settles anything. */
  lemma QuietStep(p: Program, rank: map<Name, nat>, s: State, s': State, t: nat, c: Choice)
    requires Walks(p, rank, s, t) && !s.workers[t].mode.Idle? && !c.Level? && !c.Cancel?
    requires Step(p, s, t, c) == Some(s') && s'.runs == s.runs
    ensures Walks(p, rank, s', t) && Walked(p, s, s', t)
  {
    hide Step, Inv, Exhaustive, Settled, Leads, Ranked;
    InsideCall(p, s, t, c);
    InvStep(p, s, s', t, c);
    SettledAlike(p, s, s', t);
  }

  lemma SettledAlike(p: Program, s: State, s': State, t: nat)
    requires Exhaustive(p, s, t) && s'.runs == s.runs
    ensures Exhaustive(p, s', t) && forall n :: Settled(p, s, n) ==> Settled(p, s', n)
  {
    assert forall n :: Settled(p, s, n) <==> Settled(p, s', n);
  }

  lemma LowerRank(p: Program, rank: map<Name, nat>, caller: Name, n: Name)
    requires Ranked(p, rank) && Requires(p, caller, n)
    ensures caller in rank && n in rank && n in p.tools && rank[n] < rank[caller]
  {
  }

  /** What a frame calls is a tool of lower rank than every frame on the stack. */
  lemma {:induction false} CalleeIsLower(p: Program, rank: map<Name, nat>, stack: seq<Frame>, i: nat)
    requires Ranked(p, rank) && StackShape(p, stack) && i < |stack| && Pending(stack[0].pc).Some?
    ensures var n := Pending(stack[0].pc).value;
            n in p.tools && n in rank && stack[i].name in rank && rank[n] < rank[stack[i].name]
  {
    hide StackShape, Ranked, Requires;
    if i > 0 {
      CalleeIsLower(p, rank, stack, i - 1);
      WaitsForInner(p, stack, i);
    }
    PendingIsEdge(p, stack, i);
    LowerRank(p, rank, stack[i].name, Pending(stack[i].pc).value);
  }

  /** So a name that is called and claimed already has its result. */
  lemma ClaimedIsDone(p: Program, rank: map<Name, nat>, s: State, t: nat, stack: seq<Frame>, name: Name)
    requires Walks(p, rank, s, t) && At(s, t, stack, Call(name)) && name in s.runs
    ensures s.runs[name].Done? && DependencySucceeded(s.runs[name].result)
  {
    hide Ranked, StackShape;
    var w := s.workers[t];
    Shape(p, s, t);
    if s.runs[name].Running? {
      assert HasFrame(w, name);
      var i :| 0 <= i < |w.stack| && !w.stack[i].root && w.stack[i].name == name;
      CalleeIsLower(p, rank, w.stack, i);
    }
  }

  // ----- one call -----

  /** A reconciled commit is handed back at once. */
  lemma RecoveredAnswer(p: Program, rank: map<Name, nat>, s: State, t: nat, stack: seq<Frame>, name: Name)
      returns (s': State)
    requires Walks(p, rank, s, t) && At(s, t, stack, Call(name)) && name in p.recovered
    ensures Walks(p, rank, s', t) && Walked(p, s, s', t) && At(s', t, stack, Return(name, Got(p.recovered[name])))
  {
    hide Walked, Inv, Exhaustive, Ranked;
    s' := Step(p, s, t, Go).value;
    QuietStep(p, rank, s, s', t, Go);
  }

  /** A settled dependency is waited for, and there already. */
  lemma SettledAnswer(p: Program, rank: map<Name, nat>, s: State, t: nat, stack: seq<Frame>, name: Name)
      returns (s': State)
    requires Walks(p, rank, s, t) && At(s, t, stack, Call(name)) && name !in p.recovered
    requires name in s.runs && s.runs[name].Done?
    ensures Walks(p, rank, s', t) && Walked(p, s, s', t) && At(s', t, stack, Return(name, Got(s.runs[name].result)))
  {
    hide Walked, Inv, Exhaustive, Ranked;
    var s1 := Step(p, s, t, Go).value;
    QuietStep(p, rank, s, s1, t, Go);
    s' := Step(p, s1, t, Go).value;
    QuietStep(p, rank, s1, s', t, Go);
    WalkOn(p, s, s1, s', t);
  }

  lemma OldAnswer(p: Program, rank: map<Name, nat>, s: State, t: nat, stack: seq<Frame>, name: Name)
      returns (s': State, result: ToolResult)
    requires Walks(p, rank, s, t) && At(s, t, stack, Call(name)) && (name in p.recovered || name in s.runs)
    ensures Walks(p, rank, s', t) && Walked(p, s, s', t) && At(s', t, stack, Return(name, Got(result)))
    ensures DependencySucceeded(result) && Settled(p, s', name)
  {
    hide Leads, Inv, Ranked, Exhaustive;
    if name in p.recovered {
      result := p.recovered[name];
      s' := RecoveredAnswer(p, rank, s, t, stack, name);
    } else {
      ClaimedIsDone(p, rank, s, t, stack, name);
      result := s.runs[name].result;
      s' := SettledAnswer(p, rank, s, t, stack, name);
      assert Settled(p, s, name);
    }
  }

  lemma Claimed(p: Program, s: State, s': State, t: nat, n: Name)
    requires Exhaustive(p, s, t) && n !in s.runs && n in p.tools && s'.runs == s.runs[n := Running(t)]
    ensures Exhaustive(p, s', t) && forall d :: Settled(p, s, d) ==> Settled(p, s', d)
  {
    hide Edges;
    assert forall d :: Settled(p, s, d) ==> Settled(p, s', d);
  }

  lemma NowSettled(p: Program, s: State, s': State, t: nat, n: Name, result: ToolResult)
    requires Exhaustive(p, s, t) && n in p.tools && s'.runs == s.runs[n := Done(result)]
    requires DependencySucceeded(result) && forall d <- Edges(p.tools[n]) :: Settled(p, s, d)
    ensures Exhaustive(p, s', t) && Settled(p, s', n) && forall d :: Settled(p, s, d) ==> Settled(p, s', d)
  {
    hide Edges;
    assert forall d :: Settled(p, s, d) ==> Settled(p, s', d);
  }

  /** Claiming a name that is a tool. */
  lemma ClaimStep(p: Program, rank: map<Name, nat>, s: State, t: nat, stack: seq<Frame>, name: Name)
      returns (s': State)
    requires Walks(p, rank, s, t) && At(s, t, stack, Call(name)) && name in p.tools
    requires name !in p.recovered && name !in s.runs
    ensures Walks(p, rank, s', t) && Walked(p, s, s', t)
    ensures At(s', t, [Frame(name, false, Needs(p.tools[name].needs))] + stack, Run)
  {
    hide Leads, Inv, Ranked, Exhaustive, Settled;
    s' := Step(p, s, t, Go).value;
    InsideCall(p, s, t, Go);
    InvStep(p, s, s', t, Go);
    Claimed(p, s, s', t, name);
  }

  /** Settling a dependency whose requirements are all settled. */
  lemma CloseStep(p: Program, rank: map<Name, nat>, s: State, t: nat, name: Name, below: seq<Frame>)
      returns (s': State)
    requires Walks(p, rank, s, t) && name in p.tools
    requires At(s, t, [Frame(name, false, Closing(ToolResult(name, Installed)))] + below, Run)
    requires forall d <- Edges(p.tools[name]) :: Settled(p, s, d)
    ensures Walks(p, rank, s', t) && Walked(p, s, s', t) && Settled(p, s', name)
    ensures At(s', t, below, Return(name, Got(ToolResult(name, Installed))))
  {
    hide Leads, Inv, Ranked, Exhaustive, Settled, Edges;
    s' := Step(p, s, t, Go).value;
    InsideCall(p, s, t, Go);
    InvStep(p, s, s', t, Go);
    NowSettled(p, s, s', t, name, ToolResult(name, Installed));
  }

  /** The innermost frame goes on by itself. */
  lemma TopStep(p: Program, rank: map<Name, nat>, s: State, t: nat, f: Frame, below: seq<Frame>, c: Choice, pc: Pc)
      returns (s': State)
    requires Walks(p, rank, s, t) && At(s, t, [f] + below, Run) && Pending(f.pc).None?
    requires match f.pc
             case Needs(_) => c.Go? && pc == Body([], ToolOf(p, f.name).candidates)
             case Body(_, rest) =>
               || (c == Finish(Installed) && pc == Closing(ToolResult(f.name, Installed)))
               || (c.Begin? && rest != [] && pc == Body(rest[0], rest[1..]))
             case Closing(_) => false
    ensures Walks(p, rank, s', t) && Walked(p, s, s', t) && At(s', t, [f.(pc := pc)] + below, Run)
  {
    hide Walked, Inv, Exhaustive, Ranked;
    s' := Step(p, s, t, c).value;
    assert ([f] + below)[1..] == below;
    QuietStep(p, rank, s, s', t, c);
  }

  /** What a frame has still to call before it goes on to something else. */
  function Todo(pc: Pc): seq<Name>
    requires !pc.Closing?
  {
    if pc.Needs? then pc.todo else pc.current
  }

  function WithTodo(pc: Pc, todo: seq<Name>): Pc
    requires !pc.Closing?
  {
    if pc.Needs? then Needs(todo) else Body(todo, pc.rest)
  }

  lemma CallStep(p: Program, rank: map<Name, nat>, s: State, t: nat, f: Frame, below: seq<Frame>)
      returns (s': State)
    requires Walks(p, rank, s, t) && At(s, t, [f] + below, Run) && !f.pc.Closing? && Todo(f.pc) != []
    ensures Walks(p, rank, s', t) && Walked(p, s, s', t) && At(s', t, [f] + below, Call(Todo(f.pc)[0]))
    ensures var n := Todo(f.pc)[0]; n in p.tools && n in rank && f.name in rank && rank[n] < rank[f.name]
  {
    hide Walked, Inv, Exhaustive, Ranked, StackShape;
    s' := Step(p, s, t, Go).value;
    QuietStep(p, rank, s, s', t, Go);
    Shape(p, s, t);
    CalleeIsLower(p, rank, [f] + below, 0);
  }

  lemma ReturnStep(p: Program, rank: map<Name, nat>, s: State, t: nat, f: Frame, below: seq<Frame>, result: ToolResult)
      returns (s': State)
    requires Walks(p, rank, s, t) && !f.pc.Closing? && Todo(f.pc) != [] && DependencySucceeded(result)
    requires At(s, t, [f] + below, Return(Todo(f.pc)[0], Got(result)))
    ensures Walks(p, rank, s', t) && Walked(p, s, s', t)
    ensures At(s', t, [f.(pc := WithTodo(f.pc, Todo(f.pc)[1..]))] + below, Run)
  {
    hide Walked, Inv, Exhaustive, Ranked;
    s' := Step(p, s, t, Go).value;
    assert ([f] + below)[1..] == below;
    QuietStep(p, rank, s, s', t, Go);
  }

  // ----- a whole body -----

  lemma StillSettled(p: Program, s: State, s': State, t: nat, n: Name)
    requires Walked(p, s, s', t) && Settled(p, s, n)
    ensures Settled(p, s', n)
  {
  }

  lemma AllStillSettled(p: Program, s: State, s': State, t: nat, names: seq<Name>)
    requires Walked(p, s, s', t) && forall d <- names :: Settled(p, s, d)
    ensures forall d <- names :: Settled(p, s', d)
  {
  }

  /** A called tool is answered, and with it everything it requires. */
  lemma CallAnswered(p: Program, rank: map<Name, nat>, s: State, t: nat, stack: seq<Frame>, name: Name)
      returns (s': State, result: ToolResult)
    requires Walks(p, rank, s, t) && At(s, t, stack, Call(name)) && name in p.tools && name in rank
    ensures Walks(p, rank, s', t) && Walked(p, s, s', t) && At(s', t, stack, Return(name, Got(result)))
    ensures DependencySucceeded(result) && Settled(p, s', name)
    decreases rank[name], 3, 0
  {
    hide Walked, Walks, Settled;
    if name in p.recovered || name in s.runs {
      s', result := OldAnswer(p, rank, s, t, stack, name);
    } else {
      var needs, candidates := p.tools[name].needs, p.tools[name].candidates;
      result := ToolResult(name, Installed);
      var s1 := ClaimStep(p, rank, s, t, stack, name);
      var s2 := ListWalked(p, rank, s1, t, Frame(name, false, Needs(needs)), stack);
      var s3 := TopStep(p, rank, s2, t, Frame(name, false, Needs([])), stack, Go, Body([], candidates));
      var s4 := RestWalked(p, rank, s3, t, Frame(name, false, Body([], candidates)), stack);
      var done := Closing(result);
      var s5 := TopStep(p, rank, s4, t, Frame(name, false, Body([], [])), stack, Finish(Installed), done);
      WalkOn(p, s2, s3, s4, t);
      WalkOn(p, s2, s4, s5, t);
      AllStillSettled(p, s2, s5, t, needs);
      forall c <- candidates ensures forall d <- c :: Settled(p, s5, d) { AllStillSettled(p, s4, s5, t, c); }
      s' := CloseStep(p, rank, s5, t, name, stack);
      WalkOn(p, s, s1, s2, t);
      WalkOn(p, s, s2, s5, t);
      WalkOn(p, s, s5, s', t);
    }
  }

  lemma ListWalked(p: Program, rank: map<Name, nat>, s: State, t: nat, f: Frame, below: seq<Frame>)
      returns (s': State)
    requires Walks(p, rank, s, t) && At(s, t, [f] + below, Run) && !f.pc.Closing? && f.name in rank
    ensures Walks(p, rank, s', t) && Walked(p, s, s', t)
    ensures At(s', t, [f.(pc := WithTodo(f.pc, []))] + below, Run)
    ensures forall d <- Todo(f.pc) :: Settled(p, s', d)
    decreases rank[f.name], 1, |Todo(f.pc)|
  {
    hide Walked, Walks, Settled;
    var todo := Todo(f.pc);
    if todo == [] {
      s' := s;
      StandsStill(p, s, t);
    } else {
      var s1 := CallStep(p, rank, s, t, f, below);
      var s2, result := CallAnswered(p, rank, s1, t, [f] + below, todo[0]);
      var s3 := ReturnStep(p, rank, s2, t, f, below, result);
      s' := ListWalked(p, rank, s3, t, f.(pc := WithTodo(f.pc, todo[1..])), below);
      WalkOn(p, s2, s3, s', t);
      StillSettled(p, s2, s', t, todo[0]);
      WalkOn(p, s, s1, s2, t);
      WalkOn(p, s, s2, s', t);
    }
  }

  lemma RestWalked(p: Program, rank: map<Name, nat>, s: State, t: nat, f: Frame, below: seq<Frame>)
      returns (s': State)
    requires Walks(p, rank, s, t) && At(s, t, [f] + below, Run) && f.name in rank
    requires f.pc.Body? && f.pc.current == []
    ensures Walks(p, rank, s', t) && Walked(p, s, s', t) && At(s', t, [f.(pc := Body([], []))] + below, Run)
    ensures forall c <- f.pc.rest :: forall d <- c :: Settled(p, s', d)
    decreases rank[f.name], 2, |f.pc.rest|
  {
    hide Walked, Walks, Settled;
    var rest := f.pc.rest;
    if rest == [] {
      s' := s;
      StandsStill(p, s, t);
    } else {
      var begun := f.(pc := Body(rest[0], rest[1..]));
      var s1 := TopStep(p, rank, s, t, f, below, Begin, begun.pc);
      var s2 := ListWalked(p, rank, s1, t, begun, below);
      s' := RestWalked(p, rank, s2, t, f.(pc := Body([], rest[1..])), below);
      AllStillSettled(p, s2, s', t, rest[0]);
      assert forall c <- rest :: c == rest[0] || c in rest[1..];
      WalkOn(p, s, s1, s2, t);
      WalkOn(p, s, s2, s', t);
    }
  }

  // ----- a whole level -----

  /** The tools of a level that are left once reconciled commits and unknown names are taken out. */
  function Remaining(p: Program, names: seq<Name>): (left: seq<Name>)
    ensures forall n :: n in left <==> n in names && n in p.tools && n !in p.recovered
  {
    if names == [] then []
    else (if names[0] in p.tools && names[0] !in p.recovered then [names[0]] else []) + Remaining(p, names[1..])
  }

  lemma {:induction false} RemainingConcat(p: Program, a: seq<Name>, b: seq<Name>)
    ensures Remaining(p, a + b) == Remaining(p, a) + Remaining(p, b)
    decreases |a|
  {
    if a == [] {
      assert a + b == b;
    } else {
      assert (a + b)[1..] == a[1..] + b;
      RemainingConcat(p, a[1..], b);
    }
  }

  lemma {:induction false} RemainingIsPart(p: Program, names: seq<Name>)
    ensures multiset(Remaining(p, names)) <= multiset(names)
  {
    if names != [] {
      assert names == [names[0]] + names[1..];
      RemainingIsPart(p, names[1..]);
    }
  }

  ghost predicate PrerequisitesSettled(p: Program, s: State, names: seq<Name>) {
    forall n <- names :: n in p.tools && forall d <- Prerequisites(p.tools[n]) :: Settled(p, s, d)
  }

  /** From `s` to `s'` with `names` begun as tools of a level and everything they require settled. */
  ghost predicate Advanced(p: Program, s: State, s': State, names: seq<Name>) {
    && Leads(p, s, s') && s'.cancelled == s.cancelled && s'.roots == s.roots + names
    && PrerequisitesSettled(p, s', names) && forall n :: Settled(p, s, n) ==> Settled(p, s', n)
  }

  lemma AdvanceOn(p: Program, s: State, s': State, s'': State, a: seq<Name>, b: seq<Name>)
    requires Advanced(p, s, s', a) && Advanced(p, s', s'', b)
    ensures Advanced(p, s, s'', a + b)
  {
    hide Leads, Settled, Prerequisites;
    LeadsOn(p, s, s', s'');
  }

  /** An idle worker takes the first entry of the channel. */
  lemma TakeStep(p: Program, rank: map<Name, nat>, s: State, t: nat, n: Name) returns (s': State)
    requires Walks(p, rank, s, t) && At(s, t, [], Idle) && !s.cancelled && s.queue != [] && s.queue[0] == n
    requires n in p.tools
    ensures Walks(p, rank, s', t) && At(s', t, [Frame(n, true, Body([], p.tools[n].candidates))], Run)
    ensures Leads(p, s, s') && s'.runs == s.runs && s'.workers == s.workers[t := s'.workers[t]]
    ensures s' == s.(workers := s'.workers, queue := s.queue[1..], roots := s.roots + [n])
  {
    hide Leads, Inv, Exhaustive, Ranked, Settled;
    s' := Step(p, s, t, Go).value;
    InvStep(p, s, s', t, Go);
    SettledAlike(p, s, s', t);
  }

  /** A tool of a level is done, and its worker idle. */
  lemma DoneStep(p: Program, rank: map<Name, nat>, s: State, t: nat, n: Name) returns (s': State)
    requires Walks(p, rank, s, t) && At(s, t, [Frame(n, true, Closing(ToolResult(n, Installed)))], Run)
    ensures Walks(p, rank, s', t) && Walked(p, s, s', t) && At(s', t, [], Idle)
  {
    hide Walked, Inv, Exhaustive, Ranked;
    s' := Step(p, s, t, Go).value;
    QuietStep(p, rank, s, s', t, Go);
  }

  /** One worker takes a tool and walks through all its methods. */
  lemma RootWalked(p: Program, rank: map<Name, nat>, s: State, t: nat, n: Name) returns (s': State)
    requires Walks(p, rank, s, t) && At(s, t, [], Idle) && !s.cancelled && s.queue != [] && s.queue[0] == n
    requires n in p.tools && n in rank
    ensures Walks(p, rank, s', t) && Advanced(p, s, s', [n]) && s'.workers == s.workers
    ensures s'.queue == s.queue[1..] && s'.levels == s.levels
  {
    hide Walks, Settled, Leads;
    var candidates := p.tools[n].candidates;
    var f := Frame(n, true, Body([], candidates));
    var s1 := TakeStep(p, rank, s, t, n);
    assert [f] + [] == [f];
    var s2 := RestWalked(p, rank, s1, t, f, []);
    var done := Closing(ToolResult(n, Installed));
    var s3 := TopStep(p, rank, s2, t, Frame(n, true, Body([], [])), [], Finish(Installed), done);
    assert [f.(pc := done)] + [] == [f.(pc := done)];
    s' := DoneStep(p, rank, s3, t, n);
    WalkOn(p, s2, s3, s', t);
    forall c <- candidates ensures forall d <- c :: Settled(p, s', d) { AllStillSettled(p, s2, s', t, c); }
    WalkOn(p, s1, s2, s', t);
    LeadsOn(p, s, s1, s');
    SettledSame(p, s, s1);
  }

  lemma SettledSame(p: Program, s: State, s': State)
    requires s'.runs == s.runs
    ensures forall n :: Settled(p, s, n) <==> Settled(p, s', n)
  {
  }

  lemma {:induction false} QueueWalked(p: Program, rank: map<Name, nat>, s: State, t: nat) returns (s': State)
    requires Walks(p, rank, s, t) && At(s, t, [], Idle) && !s.cancelled
    requires forall n <- s.queue :: n in p.tools && n in rank
    ensures Walks(p, rank, s', t) && Advanced(p, s, s', s.queue) && s'.workers == s.workers
    ensures s'.queue == [] && s'.levels == s.levels
    decreases |s.queue|
  {
    hide Walks;
    if s.queue == [] {
      s' := s;
      LeadsBy(p, s, s);
    } else {
      var s1 := RootWalked(p, rank, s, t, s.queue[0]);
      s' := QueueWalked(p, rank, s1, t);
      AdvanceOn(p, s, s1, s', [s.queue[0]], s.queue[1..]);
      assert s.queue == [s.queue[0]] + s.queue[1..];
    }
  }

  /** Nothing is under way between two levels. */
  ghost predicate Between(p: Program, s: State) {
    Inv(p, s) && Exhaustive(p, s, 0) && AllExited(s) && s.queue == [] && !s.cancelled
  }

  lemma LeaveStep(p: Program, s: State, k: nat) returns (s': State)
    requires Inv(p, s) && Exhaustive(p, s, 0) && s.queue == [] && At(s, k, [], Idle)
    ensures Inv(p, s') && Exhaustive(p, s', 0) && Leads(p, s, s')
    ensures s' == s.(workers := s.workers[k := Worker([], Exited)])
  {
    hide Inv, Leads, Exhaustive;
    s' := Step(p, s, k, Go).value;
    InvStep(p, s, s', k, Go);
    SettledAlike(p, s, s', 0);
  }

  /** Every worker finds an empty channel and leaves, the first `k` have done so. */
  lemma {:induction false} AllLeave(p: Program, s: State, k: nat) returns (s': State)
    requires Inv(p, s) && Exhaustive(p, s, 0) && s.queue == [] && !s.cancelled && k <= |s.workers|
    requires forall u :: 0 <= u < |s.workers| ==> s.workers[u] == Worker([], if u < k then Exited else Idle)
    ensures Between(p, s') && Advanced(p, s, s', []) && s'.levels == s.levels
    decreases |s.workers| - k
  {
    hide Inv, Leads, Exhaustive;
    if k == |s.workers| {
      s' := s;
      LeadsBy(p, s, s);
    } else {
      var s1 := LeaveStep(p, s, k);
      s' := AllLeave(p, s1, k + 1);
      LeadsOn(p, s, s1, s');
      SettledSame(p, s, s1);
    }
  }

  /** A level is started with all that remains of it. */
  lemma StartStep(p: Program, s: State, names: seq<Name>) returns (s': State)
    requires Between(p, s) && s.levels != [] && names == Remaining(p, s.levels[0])
    ensures Inv(p, s') && Exhaustive(p, s', 0) && Advanced(p, s, s', []) && s'.queue == names
    ensures s'.levels == s.levels[1..] && (s'.workers == [] <==> names == [])
    ensures forall w <- s'.workers :: w == Worker([], Idle)
  {
    hide Inv, Exhaustive, Leads;
    RemainingIsPart(p, s.levels[0]);
    s' := Step(p, s, 0, Level(names)).value;
    InvStep(p, s, s', 0, Level(names));
    StartedLevel(p, s, s', 0, Level(names));
    SettledAlike(p, s, s', 0);
  }

  lemma LevelWalked(p: Program, rank: map<Name, nat>, s: State) returns (s': State)
    requires Ranked(p, rank) && RecoveredInstalled(p) && Between(p, s) && s.levels != []
    ensures Between(p, s') && Advanced(p, s, s', Remaining(p, s.levels[0])) && s'.levels == s.levels[1..]
  {
    hide Inv, Exhaustive, Leads, Settled, PrerequisitesSettled, AllExited;
    var names := Remaining(p, s.levels[0]);
    var s1 := StartStep(p, s, names);
    if names == [] {
      s' := AllLeave(p, s1, 0);
      AdvanceOn(p, s, s1, s', [], []);
    } else {
      assert s1.workers[0] in s1.workers;
      var s2 := QueueWalked(p, rank, s1, 0);
      assert forall u :: 0 <= u < |s2.workers| ==> s2.workers[u] in s1.workers;
      s' := AllLeave(p, s2, 0);
      AdvanceOn(p, s, s1, s2, [], names);
      AdvanceOn(p, s, s2, s', [] + names, []);
      assert [] + names == names && names + [] == names;
    }
  }

  // ----- all levels -----

  lemma {:induction false} LevelsWalked(p: Program, rank: map<Name, nat>, s: State) returns (s': State)
    requires Ranked(p, rank) && RecoveredInstalled(p) && Between(p, s)
    ensures Between(p, s') && Advanced(p, s, s', Remaining(p, Flat(s.levels))) && s'.levels == []
    decreases |s.levels|
  {
    hide Between, Ranked;
    if s.levels == [] {
      s' := s;
      LeadsBy(p, s, s);
    } else {
      var s1 := LevelWalked(p, rank, s);
      s' := LevelsWalked(p, rank, s1);
      AdvanceOn(p, s, s1, s', Remaining(p, s.levels[0]), Remaining(p, Flat(s.levels[1..])));
      RemainingConcat(p, s.levels[0], Flat(s.levels[1..]));
    }
  }

  lemma StartIsBetween(p: Program, levels: seq<seq<Name>>)
    ensures Between(p, Start(levels))
  {
  }

  /** Along a path of calls everything is settled. */
  lemma {:induction false} PathIsSettled(p: Program, levels: seq<seq<Name>>, s: State, path: seq<Name>, i: nat)
    requires CallPath(p, levels, path) && 0 < i < |path| && Exhaustive(p, s, 0) && AllExited(s) && Inv(p, s)
    requires PrerequisitesSettled(p, s, Remaining(p, Flat(levels)))
    ensures path[i] in s.runs && s.runs[path[i]].Done?
  {
    hide Inv, AllExited, Edges, Prerequisites, Flat;
    if i > 1 {
      PathIsSettled(p, levels, s, path, i - 1);
      assert Requires(p, path[i - 1], path[i]);
      assert Settled(p, s, path[i]);
    } else {
      assert path[0] in Remaining(p, Flat(levels));
      assert Settled(p, s, path[1]);
    }
  }

  /** The sorter's graph is walked in full: some run, not cancelled, completes with every tool of every
      level begun, and with exactly those dependencies claimed to which a path of calls leads. No
      run claims another one. */
  lemma EveryRoleIsTaken(p: Program, edges: map<Name, seq<Name>>, levels: seq<seq<Name>>) returns (trace: seq<State>)
    requires Accepted(p, edges) && RecoveredInstalled(p)
    ensures Execution(p, levels, trace)
    ensures var s := trace[|trace| - 1];
            && Completed(p, s) && !s.cancelled && s.roots == Remaining(p, Flat(levels))
            && forall n :: n in s.claims <==> Called(p, levels, n)
  {
    hide Ranked, Accepted, Step, Flat, LevelTool, Next;
    var rank := RankOf(p, edges);
    StartIsBetween(p, levels);
    var s := LevelsWalked(p, rank, Start(levels));
    trace :| Path(p, trace, Start(levels), s);
    var k := |trace| - 1;
    ClaimedIsCalled(p, levels, trace, k);
    forall n | Called(p, levels, n) ensures n in s.claims {
      var path :| CallPath(p, levels, path) && path[|path| - 1] == n;
      PathIsSettled(p, levels, s, path, |path| - 1);
    }
    assert [] + Remaining(p, Flat(levels)) == Remaining(p, Flat(levels));
    EndIsCompleted(p, levels, trace, k);
  }

  lemma EndIsCompleted(p: Program, levels: seq<seq<Name>>, trace: seq<State>, k: nat)
    requires Execution(p, levels, trace) && k < |trace| && Between(p, trace[k]) && trace[k].levels == []
    ensures Completed(p, trace[k])
  {
    hide Step, Flat, Next, Known;
    var s := trace[k];
    forall w <- s.workers ensures w == Worker([], Exited) {
      var t :| 0 <= t < |s.workers| && s.workers[t] == w;
      Shape(p, s, t);
    }
    AllSettled(p, s);
    LevelToolsBegunInOrder(p, levels, trace, k);
    NothingKnown(p);
    assert s.roots + [] == s.roots;
  }

  // ----- both roles -----

  /** Some run begins `n` as a tool of a level and as a dependency. */
  ghost predicate BegunBothWays(p: Program, levels: seq<seq<Name>>, n: Name) {
    exists trace: seq<State>, k: nat ::
      Execution(p, levels, trace) && k < |trace| && n in trace[k].roots && n in trace[k].claims
  }

  /** Single flight is kept among dependencies and among tools of levels, not across: exactly the tools
      of a level that a path of calls leads to can be begun in both roles. */
  lemma BegunBothWaysExactlyWhere(p: Program, edges: map<Name, seq<Name>>, levels: seq<seq<Name>>, n: Name)
    requires Accepted(p, edges) && RecoveredInstalled(p)
    ensures BegunBothWays(p, levels, n) <==> LevelTool(p, levels, n) && Called(p, levels, n)
  {
    hide Accepted, Next, Called, Flat;
    if BegunBothWays(p, levels, n) {
      var trace: seq<State>, k: nat :|
        Execution(p, levels, trace) && k < |trace| && n in trace[k].roots && n in trace[k].claims;
      RootsAreLevelTools(p, levels, trace, k);
      ClaimedIsCalled(p, levels, trace, k);
    }
    var trace := EveryRoleIsTaken(p, edges, levels);
    var last := trace[|trace| - 1];
    if LevelTool(p, levels, n) && Called(p, levels, n) {
      assert n in last.roots && n in last.claims;
    }
  }

  ghost predicate RolesApart(s: State) {
    forall n <- s.roots :: n !in s.claims
  }

  /** So the two roles are kept apart in every run exactly where no path of calls leads to a tool of a
      level. */
  lemma RolesStayApartExactlyWhere(p: Program, edges: map<Name, seq<Name>>, levels: seq<seq<Name>>)
    requires Accepted(p, edges) && RecoveredInstalled(p)
    ensures (forall trace: seq<State>, k: nat ::
               Execution(p, levels, trace) && k < |trace| ==> RolesApart(trace[k]))
            <==> (forall n :: LevelTool(p, levels, n) ==> !Called(p, levels, n))
  {
    hide Accepted, Execution, Called, LevelTool;
    if n: Name :| LevelTool(p, levels, n) && Called(p, levels, n) {
      BegunBothWaysExactlyWhere(p, edges, levels, n);
      var trace: seq<State>, k: nat :|
        Execution(p, levels, trace) && k < |trace| && n in trace[k].roots && n in trace[k].claims;
      assert !RolesApart(trace[k]);
    } else if trace: seq<State>, k: nat :| Execution(p, levels, trace) && k < |trace| && !RolesApart(trace[k]) {
      var n :| n in trace[k].roots && n in trace[k].claims;
      assert BegunBothWays(p, levels, n);
      BegunBothWaysExactlyWhere(p, edges, levels, n);
    }
  }

  // ----- a run with two bodies of one tool -----

  /** Tool `a` has a method that requires tool `b`; the tools stand in one level. */
  function MethodRequires(a: Name, b: Name): Program {
    Program(map[a := Tool([], [[b]]), b := Tool([], [])], map[], 2)
  }

  /** Two workers, state by state: the first takes `a` and claims `b`, the second takes `b`. */
  function TwinPhase(a: Name, b: Name, i: nat): State {
    var begun, calling := Frame(a, true, Body([], [[b]])), Frame(a, true, Body([b], []));
    var claimed, taken := Frame(b, false, Needs([])), Frame(b, true, Body([], []));
    var started :=
      State([Worker([], Idle), Worker([], Idle)], map[], [a, b], [], false, [a, b], [], [], []);
    var second := Worker([taken], Run);
    var both := started.(workers := [Worker([begun], Run), second], queue := [], roots := [a, b]);
    match i
    case 0 => Start([[a, b]])
    case 1 => started
    case 2 => started.(workers := [Worker([begun], Run), Worker([], Idle)], queue := [b], roots := [a])
    case 3 => both
    case 4 => both.(workers := [Worker([calling], Run), second])
    case 5 => both.(workers := [Worker([calling], Call(b)), second])
    case _ => both.(workers := [Worker([claimed, calling], Run), second], runs := map[b := Running(0)], claims := [b])
  }

  lemma TwinStarts(a: Name, b: Name)
    requires a != b
    ensures Next(MethodRequires(a, b), TwinPhase(a, b, 0), TwinPhase(a, b, 1))
  {
    var p, s, s' := MethodRequires(a, b), TwinPhase(a, b, 0), TwinPhase(a, b, 1);
    assert seq(2, _ => Worker([], Idle)) == s'.workers;
    assert s.levels[1..] == [] && s.admitted + [a, b] == [a, b];
    assert Step(p, s, 0, Level([a, b])) == Some(s');
  }

  lemma TwinsBegin(a: Name, b: Name, i: nat)
    requires a != b && 1 <= i < 3
    ensures Next(MethodRequires(a, b), TwinPhase(a, b, i), TwinPhase(a, b, i + 1))
  {
    var p, s, s' := MethodRequires(a, b), TwinPhase(a, b, i), TwinPhase(a, b, i + 1);
    assert SetWorker(s, i - 1, s'.workers[i - 1]).workers == s'.workers;
    assert [a, b][1..] == [b] && [b][1..] == [] && [] + [a] == [a] && [a] + [b] == [a, b];
    assert Step(p, s, i - 1, Go) == Some(s');
  }

  lemma TwinClaims(a: Name, b: Name, i: nat)
    requires a != b && 3 <= i < 6
    ensures Next(MethodRequires(a, b), TwinPhase(a, b, i), TwinPhase(a, b, i + 1))
  {
    var p, s, s' := MethodRequires(a, b), TwinPhase(a, b, i), TwinPhase(a, b, i + 1);
    assert SetWorker(s, 0, s'.workers[0]).workers == s'.workers;
    var none: seq<seq<Name>> := [];
    assert [[b]][1..] == none && [] + [b] == [b];
    assert s'.workers[0].stack
           == [s'.workers[0].stack[0]] + (if i == 5 then s.workers[0].stack else s.workers[0].stack[1..]);
    assert Step(p, s, 0, if i == 3 then Begin else Go) == Some(s');
  }

  lemma TwinsAtEnd(a: Name, b: Name)
    ensures Twins(TwinPhase(a, b, 6), b)
  {
    var s := TwinPhase(a, b, 6);
    assert s.workers[0].stack[0].name == b;
    assert HasFrame(s.workers[0], b) && OuterFrame(s.workers[1], b);
  }

  lemma SorterAccepts(a: Name, b: Name)
    requires a != b
    ensures Accepted(MethodRequires(a, b), map[a := [b], b := []])
  {
    assert Numbering(map[a := [b], b := []], map[a := 1, b := 0]);
  }

  /** The bodies of one tool can even be under way at the same time, one as a tool of its level and one
      as a prerequisite of the other tool's method. */
  lemma TwinBodiesExample(a: Name, b: Name)
    requires a != b
    ensures Accepted(MethodRequires(a, b), map[a := [b], b := []])
    ensures exists trace ::
              && Execution(MethodRequires(a, b), [[a, b]], trace) && trace != []
              && Twins(trace[|trace| - 1], b)
  {
    hide Next, Twins;
    var p := MethodRequires(a, b);
    var trace := seq(7, i requires 0 <= i < 7 => TwinPhase(a, b, i));
    TwinStarts(a, b);
    forall i | 0 < i < |trace| ensures Next(p, trace[i - 1], trace[i]) {
      if 1 < i < 4 { TwinsBegin(a, b, i - 1); } else if i >= 4 { TwinClaims(a, b, i - 1); }
    }
    TwinsAtEnd(a, b);
    SorterAccepts(a, b);
    assert Execution(p, [[a, b]], trace) && trace[|trace| - 1] == TwinPhase(a, b, 6);
  }

  /** Two workers have a frame of `n` each, the one as a tool of a level, the other as a dependency. */
  ghost predicate Twins(s: State, n: Name) {
    exists i, j :: 0 <= i < |s.workers| && 0 <= j < |s.workers| && i != j
                   && OuterFrame(s.workers[i], n) && HasFrame(s.workers[j], n)
  }

  predicate OuterFrame(w: Worker, n: Name) {
    w.stack != [] && w.stack[|w.stack| - 1].root && w.stack[|w.stack| - 1].name == n
  }
}
