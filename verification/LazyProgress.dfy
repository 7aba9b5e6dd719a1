/**
 Progress of the lazy dependency protocol: every run is finite, and acyclic requirement edges
 leave no deadlock. A dependency that requires itself does wait for ever.
 */
module LazyProgress {
  import opened Basics
  import opened LazyDependencies

  // ----- every run is finite -----

  function PcCost(p: Program, name: Name, pc: Pc): nat {
    match pc
    case Needs(todo) => 5 * |todo| + 1 + BodyCost([], ToolOf(p, name).candidates)
    case Body(current, rest) => BodyCost(current, rest)
    case Closing(_) => 1
  }

  function BodyCost(current: seq<Name>, rest: seq<seq<Name>>): nat
    decreases |rest|
  {
    5 * |current| + 2 + if rest == [] then 0 else 1 + BodyCost(rest[0], rest[1..])
  }

  function StackCost(p: Program, stack: seq<Frame>): nat {
    if stack == [] then 0 else PcCost(p, stack[0].name, stack[0].pc) + StackCost(p, stack[1..])
  }

  function ModeCost(mode: Mode): nat {
    match mode
    case Idle => 1
    case Run => 3
    case Call(_) => 2
    case Wait(_) => 1
    case Return(_, _) => 0
    case Exited => 0
  }

  function WorkersCost(p: Program, workers: seq<Worker>): nat {
    if workers == [] then 0
    else StackCost(p, workers[0].stack) + ModeCost(workers[0].mode) + WorkersCost(p, workers[1..])
  }

  function QueueCost(p: Program, queue: seq<Name>): nat {
    if queue == [] then 0
    else 3 + BodyCost([], ToolOf(p, queue[0]).candidates) + QueueCost(p, queue[1..])
  }

  /** Starting a level, whatever part of it is admitted in whatever order. */
  function LevelsCost(p: Program, levels: seq<seq<Name>>): nat {
    if levels == [] then 0 else 1 + |levels[0]| + QueueCost(p, levels[0]) + LevelsCost(p, levels[1..])
  }

  function UnclaimedCost(p: Program, names: seq<Name>, s: State): nat {
    if names == [] then 0
    else (if names[0] in s.runs then 0 else 2 + PcCost(p, names[0], ClaimedFrame(p, names[0]).pc))
         + UnclaimedCost(p, names[1..], s)
  }

  /** The work left in `s`, over a list `names` of all the names that can be called. */
  function Work(p: Program, names: seq<Name>, s: State): nat {
    UnclaimedCost(p, names, s) + WorkersCost(p, s.workers) + QueueCost(p, s.queue) + LevelsCost(p, s.levels)
    + if s.cancelled then 0 else 1
  }

  /** `names` lists every requirement of every tool. */
  ghost predicate Covers(p: Program, names: seq<Name>) {
    forall n <- p.tools :: forall d <- Edges(p.tools[n]) :: d in names
  }

  lemma {:induction false} WorkersCostUpdate(p: Program, workers: seq<Worker>, t: nat, w: Worker)
    requires t < |workers|
    ensures WorkersCost(p, workers[t := w]) + StackCost(p, workers[t].stack) + ModeCost(workers[t].mode)
         == WorkersCost(p, workers) + StackCost(p, w.stack) + ModeCost(w.mode)
  {
    if t > 0 {
      assert workers[t := w][1..] == workers[1..][t - 1 := w];
      WorkersCostUpdate(p, workers[1..], t - 1, w);
    } else {
      assert workers[t := w][1..] == workers[1..];
    }
  }

  lemma {:induction false} UnclaimedSame(p: Program, names: seq<Name>, s: State, s': State)
    requires s.runs.Keys == s'.runs.Keys
    ensures UnclaimedCost(p, names, s') == UnclaimedCost(p, names, s)
  {
    if names != [] {
      UnclaimedSame(p, names[1..], s, s');
    }
  }

  lemma {:induction false} UnclaimedClaim(p: Program, names: seq<Name>, s: State, s': State, name: Name)
    requires s'.runs.Keys == s.runs.Keys + {name} && name !in s.runs
    ensures UnclaimedCost(p, names, s') <= UnclaimedCost(p, names, s)
    ensures name in names ==>
              UnclaimedCost(p, names, s') + 2 + PcCost(p, name, ClaimedFrame(p, name).pc) <= UnclaimedCost(p, names, s)
  {
    if names != [] {
      UnclaimedClaim(p, names[1..], s, s', name);
    }
  }

  /** A step that changes only worker `t` and leaves the claims alone. */
  lemma WorkLess(p: Program, names: seq<Name>, s: State, s': State, t: nat)
    requires t < |s.workers| == |s'.workers| && s'.workers == s.workers[t := s'.workers[t]]
    requires s'.queue == s.queue && s'.levels == s.levels
    requires s'.runs.Keys == s.runs.Keys && s'.cancelled == s.cancelled
    requires StackCost(p, s'.workers[t].stack) + ModeCost(s'.workers[t].mode)
           < StackCost(p, s.workers[t].stack) + ModeCost(s.workers[t].mode)
    ensures Work(p, names, s') < Work(p, names, s)
  {
    WorkersCostUpdate(p, s.workers, t, s'.workers[t]);
    UnclaimedSame(p, names, s, s');
  }

  lemma IdleWork(p: Program, names: seq<Name>, s: State, t: nat)
    requires t < |s.workers| && s.workers[t] == Worker([], Idle)
    ensures Work(p, names, StepIdle(p, s, t).value) < Work(p, names, s)
  {
    var s' := StepIdle(p, s, t).value;
    WorkersCostUpdate(p, s.workers, t, s'.workers[t]);
    UnclaimedSame(p, names, s, s');
    if s'.workers == s.workers {
      assert s'.workers == s.workers[t := s.workers[t]];
    }
  }

  lemma ResumeWork(p: Program, frame: Frame, outcome: Outcome)
    requires Pending(frame.pc).Some?
    ensures PcCost(p, frame.name, Resume(frame, outcome).pc) + 4 <= PcCost(p, frame.name, frame.pc)
  {
  }

  lemma TopWork(p: Program, names: seq<Name>, s: State, t: nat, pc: Pc)
    requires t < |s.workers| && s.workers[t].mode.Run? && s.workers[t].stack != []
    requires PcCost(p, s.workers[t].stack[0].name, pc) < PcCost(p, s.workers[t].stack[0].name, s.workers[t].stack[0].pc)
    ensures Work(p, names, SetTop(s, t, pc)) < Work(p, names, s)
  {
    var s' := SetTop(s, t, pc);
    assert s'.workers[t].stack[1..] == s.workers[t].stack[1..];
    WorkLess(p, names, s, s', t);
  }

  lemma RunWork(p: Program, names: seq<Name>, s: State, t: nat, c: Choice)
    requires t < |s.workers| && s.workers[t].mode.Run? && StepRun(p, s, t, c).Some? && OwnedFrames(s, t)
    ensures Work(p, names, StepRun(p, s, t, c).value) < Work(p, names, s)
  {
    var s' := StepRun(p, s, t, c).value;
    var frame := s.workers[t].stack[0];
    if Pending(frame.pc).Some? {
      WorkLess(p, names, s, s', t);
    } else {
      match frame.pc
      case Needs(_) => TopWork(p, names, s, t, Body([], ToolOf(p, frame.name).candidates));
      case Closing(result) =>
        assert s'.workers[t].stack == s.workers[t].stack[1..];
        WorkLess(p, names, s, s', t);
      case Body(_, rest) =>
        if c.Finish? {
          TopWork(p, names, s, t, Closing(ToolResult(frame.name, c.status)));
        } else if c.Begin? {
          TopWork(p, names, s, t, Body(rest[0], rest[1..]));
        } else {
          assert BodyCost([], rest[1..]) <= BodyCost(rest[0], rest[1..]);
          TopWork(p, names, s, t, Body([], rest[1..]));
        }
    }
  }

  lemma {:induction false} QueueCostConcat(p: Program, a: seq<Name>, b: seq<Name>)
    ensures QueueCost(p, a + b) == QueueCost(p, a) + QueueCost(p, b)
    decreases |a|
  {
    if a == [] {
      assert a + b == b;
    } else {
      assert (a + b)[1..] == a[1..] + b;
      QueueCostConcat(p, a[1..], b);
    }
  }

  lemma TakenOut(whole: seq<Name>, n: Name) returns (a: seq<Name>, b: seq<Name>)
    requires n in multiset(whole)
    ensures whole == a + ([n] + b) && multiset(whole) == multiset(a + b) + multiset{n}
  {
    var i :| 0 <= i < |whole| && whole[i] == n;
    a, b := whole[..i], whole[i + 1..];
    assert whole == a + ([n] + b);
  }

  lemma HeadCounts(part: seq<Name>)
    requires part != []
    ensures multiset(part) == multiset(part[1..]) + multiset{part[0]}
  {
    assert part == [part[0]] + part[1..];
  }

  lemma OneLessEach(a: multiset<Name>, b: multiset<Name>, n: Name)
    requires a + multiset{n} <= b + multiset{n}
    ensures a <= b
  {
    var one := multiset{n};
    assert (a + one) - one == a && (b + one) - one == b;
    forall x ensures a[x] <= b[x] { assert (a + one)[x] == a[x] + one[x] && (b + one)[x] == b[x] + one[x]; }
  }

  /** A part of a level costs no more than the level, in whatever order it is admitted. */
  lemma {:induction false} PartCostsLess(p: Program, part: seq<Name>, whole: seq<Name>)
    requires multiset(part) <= multiset(whole)
    ensures QueueCost(p, part) <= QueueCost(p, whole) && |part| <= |whole|
    decreases |part|
  {
    hide ToolOf, BodyCost;
    if part != [] {
      HeadCounts(part);
      var a, b := TakenOut(whole, part[0]);
      OneLessEach(multiset(part[1..]), multiset(a + b), part[0]);
      PartCostsLess(p, part[1..], a + b);
      QueueCostConcat(p, a, [part[0]] + b);
      QueueCostConcat(p, a, b);
      assert ([part[0]] + b)[1..] == b;
    }
  }

  lemma {:induction false} FreshCost(p: Program, workers: seq<Worker>)
    requires forall w <- workers :: w == Worker([], Idle)
    ensures WorkersCost(p, workers) == |workers|
  {
    if workers != [] {
      assert workers[0] in workers && forall w <- workers[1..] :: w in workers;
      FreshCost(p, workers[1..]);
    }
  }

  lemma LevelWork(p: Program, names: seq<Name>, s: State, admitted: seq<Name>)
    requires Inv(p, s) && StepLevel(p, s, admitted).Some?
    ensures Work(p, names, StepLevel(p, s, admitted).value) < Work(p, names, s)
  {
    hide *;
    var s' := LevelStarts(p, s, admitted);
    PartCostsLess(p, admitted, s.levels[0]);
    FreshCost(p, s'.workers);
    UnclaimedSame(p, names, s, s');
    WorkOf(p, names, s);
    WorkOf(p, names, s');
  }

  lemma WorkOf(p: Program, names: seq<Name>, s: State)
    ensures Work(p, names, s)
            == UnclaimedCost(p, names, s) + WorkersCost(p, s.workers) + QueueCost(p, s.queue)
               + LevelsCost(p, s.levels) + if s.cancelled then 0 else 1
    ensures LevelsCost(p, s.levels)
            == if s.levels == [] then 0
               else 1 + |s.levels[0]| + QueueCost(p, s.levels[0]) + LevelsCost(p, s.levels[1..])
  {
  }

  lemma LevelStarts(p: Program, s: State, admitted: seq<Name>) returns (s': State)
    requires StepLevel(p, s, admitted).Some?
    ensures StepLevel(p, s, admitted) == Some(s')
    ensures s.levels != [] && multiset(admitted) <= multiset(s.levels[0])
    ensures |s'.workers| <= |admitted| && forall w <- s'.workers :: w == Worker([], Idle)
    ensures s'.queue == admitted && s'.levels == s.levels[1..] && s'.runs == s.runs && s'.cancelled == s.cancelled
  {
    s' := StepLevel(p, s, admitted).value;
  }

  lemma StepWork(p: Program, names: seq<Name>, s: State, s': State)
    requires Inv(p, s) && Covers(p, names) && Next(p, s, s')
    ensures Work(p, names, s') < Work(p, names, s)
  {
    hide Work, Inv, StackShape, Covers, StepIdle, StepRun, StepCall, StepReturn, StepLevel, PcCost;
    var t: nat, c: Choice :| Step(p, s, t, c) == Some(s');
    if c.Cancel? {
      CancelWork(p, names, s);
    } else if c.Level? {
      LevelWork(p, names, s, c.names);
    } else {
      Shape(p, s, t);
      match s.workers[t].mode
      case Idle => IdleWork(p, names, s, t);
      case Run => RunWork(p, names, s, t, c);
      case Call(name) =>
        CalledIsCovered(p, names, s.workers[t].stack);
        CallWork(p, names, s, t, c, s');
      case Wait(name) => WorkLess(p, names, s, s', t);
      case Return(name, outcome) => ReturnWork(p, names, s, t, c, s');
      case Exited =>
    }
  }

  lemma CancelWork(p: Program, names: seq<Name>, s: State)
    requires !s.cancelled
    ensures Work(p, names, s.(cancelled := true)) < Work(p, names, s)
  {
    UnclaimedSame(p, names, s, s.(cancelled := true));
  }

  lemma CalledIsCovered(p: Program, names: seq<Name>, stack: seq<Frame>)
    requires StackShape(p, stack) && Covers(p, names) && stack != [] && Pending(stack[0].pc).Some?
    ensures Pending(stack[0].pc).value in names
  {
    hide StackShape;
    PendingIsEdge(p, stack, 0);
  }

  lemma CallWork(p: Program, names: seq<Name>, s: State, t: nat, c: Choice, s': State)
    requires t < |s.workers| && s.workers[t].mode.Call? && s.workers[t].mode.name in names
    requires !c.Cancel? && !c.Level? && Step(p, s, t, c) == Some(s')
    ensures Work(p, names, s') < Work(p, names, s)
  {
    var w := s.workers[t];
    var name := w.mode.name;
    if name in p.recovered || name in s.runs {
      WorkLess(p, names, s, s', t);
    } else {
      WorkersCostUpdate(p, s.workers, t, s'.workers[t]);
      UnclaimedClaim(p, names, s, s', name);
      assert s'.workers[t].stack[1..] == w.stack;
    }
  }

  lemma ReturnWork(p: Program, names: seq<Name>, s: State, t: nat, c: Choice, s': State)
    requires t < |s.workers| && s.workers[t].mode.Return? && s.workers[t].stack != []
    requires Pending(s.workers[t].stack[0].pc).Some?
    requires !c.Cancel? && !c.Level? && Step(p, s, t, c) == Some(s')
    ensures Work(p, names, s') < Work(p, names, s)
  {
    var w := s.workers[t];
    ResumeWork(p, w.stack[0], w.mode.outcome);
    assert s'.workers[t].stack[1..] == w.stack[1..];
    WorkLess(p, names, s, s', t);
  }

  /** Every run over all its levels is finite, whatever the requirements look like: a run of
      `|trace|` states used up at least `|trace| - 1` units of the work there was at the start. */
  lemma {:induction false} RunsAreFinite(p: Program, names: seq<Name>, levels: seq<seq<Name>>, trace: seq<State>,
                                         k: nat)
    requires Execution(p, levels, trace) && Covers(p, names) && k < |trace|
    ensures k + Work(p, names, trace[k]) <= Work(p, names, Start(levels))
  {
    hide Work, Next, Inv, Covers;
    if k > 0 {
      RunsAreFinite(p, names, levels, trace, k - 1);
      InvHolds(p, levels, trace, k - 1);
      StepWork(p, names, trace[k - 1], trace[k]);
    }
  }

  // ----- the dependency graph -----

  /** The graph handed to the sorter: for every tool its own requirements followed by those of its
      methods that are not listed yet. */
  method AllDependencyEdges(tools: map<Name, Tool>) returns (out: map<Name, seq<Name>>)
    ensures out.Keys == tools.Keys
    ensures forall n <- tools :: tools[n].needs <= out[n]
    ensures forall n <- tools, d :: d in out[n] <==> d in Edges(tools[n])
    ensures forall n <- tools, i, j :: |tools[n].needs| <= j < |out[n]| && 0 <= i < j ==> out[n][i] != out[n][j]
  {
    out := map[];
    var names := tools.Keys;
    while names != {}
      invariant names <= tools.Keys && out.Keys == tools.Keys - names
      invariant forall n <- out :: tools[n].needs <= out[n]
      invariant forall n <- out, d :: d in out[n] <==> d in Edges(tools[n])
      invariant forall n <- out, i, j :: |tools[n].needs| <= j < |out[n]| && 0 <= i < j ==> out[n][i] != out[n][j]
    {
      var name :| name in names;
      var edges := ToolEdges(tools[name]);
      out := out[name := edges];
      names := names - {name};
    }
  }

  method ToolEdges(tool: Tool) returns (edges: seq<Name>)
    ensures tool.needs <= edges
    ensures forall d :: d in edges <==> d in Edges(tool)
    ensures forall i, j :: |tool.needs| <= j < |edges| && 0 <= i < j ==> edges[i] != edges[j]
  {
    edges := tool.needs;
    var seen := set d | d in tool.needs;
    for m := 0 to |tool.candidates|
      invariant tool.needs <= edges && seen == (set d | d in edges)
      invariant forall d :: d in edges <==> d in tool.needs || exists c :: 0 <= c < m && d in tool.candidates[c]
      invariant forall i, j :: |tool.needs| <= j < |edges| && 0 <= i < j ==> edges[i] != edges[j]
    {
      var needs := tool.candidates[m];
      for k := 0 to |needs|
        invariant tool.needs <= edges && seen == (set d | d in edges)
        invariant forall d :: d in edges <==>
                    d in tool.needs || d in needs[..k] || exists c :: 0 <= c < m && d in tool.candidates[c]
        invariant forall i, j :: |tool.needs| <= j < |edges| && 0 <= i < j ==> edges[i] != edges[j]
      {
        assert needs[..k + 1] == needs[..k] + [needs[k]];
        if needs[k] !in seen {
          edges := edges + [needs[k]];
          seen := seen + {needs[k]};
        }
      }
      assert needs[..|needs|] == needs;
    }
  }

  /** `levels` numbers the tools so that every requirement that is a tool has a smaller number. */
  ghost predicate Numbering(edges: map<Name, seq<Name>>, levels: map<Name, nat>) {
    && levels.Keys == edges.Keys
    && forall n <- edges :: forall d <- edges[n] :: d in edges ==> levels[d] < levels[n]
  }

  ghost predicate Acyclic(edges: map<Name, seq<Name>>) {
    exists levels: map<Name, nat> :: Numbering(edges, levels)
  }

  // ----- no deadlock -----

  /** The worker waits for a result that is not there yet. */
  predicate Blocked(s: State, w: Worker) {
    w.mode.Wait? && !(w.mode.name in s.runs && s.runs[w.mode.name].Done?)
  }

  lemma FreeWorkerSteps(p: Program, s: State, t: nat)
    requires Inv(p, s) && t < |s.workers| && !s.workers[t].mode.Exited? && !Blocked(s, s.workers[t])
    ensures Step(p, s, t, Finish(Failed)).Some?
  {
    var w := s.workers[t];
    assert WorkerShape(p, s, w);
    match w.mode
    case Run =>
    case Return(name, outcome) => KeepReturn(p, s, t, name, outcome);
    case _ =>
  }

  /** Numbers fall from a frame to the frames it called. */
  lemma {:induction false} InnerIsLower(p: Program, edges: map<Name, seq<Name>>, levels: map<Name, nat>,
                                        stack: seq<Frame>, i: nat)
    requires StackShape(p, stack) && i < |stack| && Numbering(edges, levels)
    requires edges.Keys == p.tools.Keys && forall n <- p.tools, d :: d in edges[n] <==> d in Edges(p.tools[n])
    requires Pending(stack[0].pc).Some? && Pending(stack[0].pc).value in p.tools
    ensures stack[i].name in p.tools && levels[Pending(stack[0].pc).value] < levels[stack[i].name]
  {
    hide StackShape, Edges;
    if i > 0 {
      InnerIsLower(p, edges, levels, stack, i - 1);
      WaitsForInner(p, stack, i);
    }
    PendingIsEdge(p, stack, i);
    assert Pending(stack[i].pc).value in edges[stack[i].name];
  }

  /** If a worker is blocked, its owner can go on or is itself blocked on a lower name. */
  lemma OwnerIsLower(p: Program, edges: map<Name, seq<Name>>, levels: map<Name, nat>, s: State, t: nat)
      returns (owner: nat)
    requires Inv(p, s) && t < |s.workers| && Blocked(s, s.workers[t]) && Numbering(edges, levels)
    requires edges.Keys == p.tools.Keys && forall n <- p.tools, d :: d in edges[n] <==> d in Edges(p.tools[n])
    ensures owner < |s.workers| && !s.workers[owner].mode.Exited?
    ensures Blocked(s, s.workers[owner]) && s.workers[owner].mode.name in p.tools ==>
              && s.workers[t].mode.name in p.tools
              && levels[s.workers[owner].mode.name] < levels[s.workers[t].mode.name]
  {
    assert WorkerShape(p, s, s.workers[t]);
    var name := s.workers[t].mode.name;
    owner := s.runs[name].owner;
    var w := s.workers[owner];
    assert HasFrame(w, name);
    var i :| 0 <= i < |w.stack| && !w.stack[i].root && w.stack[i].name == name;
    assert WorkerShape(p, s, w);
    if Blocked(s, w) && w.mode.name in p.tools {
      InnerIsLower(p, edges, levels, w.stack, i);
    }
  }

  lemma InnermostIfNotCalling(p: Program, stack: seq<Frame>, i: nat)
    requires StackShape(p, stack) && i < |stack|
    ensures Pending(stack[i].pc).None? ==> i == 0
  {
    assert i > 0 ==> Pending(stack[i].pc) == Some(stack[i - 1].name);
  }

  /** An undefined dependency is settled by its owner without waiting for anything. */
  lemma UndefinedOwnerIsFree(p: Program, s: State, t: nat)
    requires Inv(p, s) && t < |s.workers| && Blocked(s, s.workers[t]) && s.workers[t].mode.name !in p.tools
    ensures exists u :: 0 <= u < |s.workers| && !s.workers[u].mode.Exited? && !Blocked(s, s.workers[u])
  {
    assert WorkerShape(p, s, s.workers[t]);
    var name := s.workers[t].mode.name;
    var u := s.runs[name].owner;
    var w := s.workers[u];
    assert HasFrame(w, name);
    var i :| 0 <= i < |w.stack| && !w.stack[i].root && w.stack[i].name == name;
    assert WorkerShape(p, s, w) && OwnNames(p, w.stack[i]);
    assert w.stack[i].pc.Closing?;
    InnermostIfNotCalling(p, w.stack, i);
    assert !Blocked(s, w);
  }

  lemma {:induction false} SomeoneIsFree(p: Program, edges: map<Name, seq<Name>>, levels: map<Name, nat>, s: State,
                                         t: nat)
    requires Inv(p, s) && t < |s.workers| && !s.workers[t].mode.Exited? && Numbering(edges, levels)
    requires edges.Keys == p.tools.Keys && forall n <- p.tools, d :: d in edges[n] <==> d in Edges(p.tools[n])
    ensures exists u :: 0 <= u < |s.workers| && !s.workers[u].mode.Exited? && !Blocked(s, s.workers[u])
    decreases if Blocked(s, s.workers[t]) && s.workers[t].mode.name in p.tools then levels[s.workers[t].mode.name] + 1
              else 0
  {
    if Blocked(s, s.workers[t]) {
      if s.workers[t].mode.name !in p.tools {
        UndefinedOwnerIsFree(p, s, t);
      } else {
        var owner := OwnerIsLower(p, edges, levels, s, t);
        SomeoneIsFree(p, edges, levels, s, owner);
      }
    }
  }

  /** Nothing can happen any more, except for an outside cancellation. */
  ghost predicate Stuck(p: Program, s: State) {
    forall t: nat, c: Choice :: c.Cancel? || Step(p, s, t, c).None?
  }

  /** `edges` is the graph that `AllDependencyEdges` hands to the sorter, without a cycle. */
  ghost predicate SortedGraph(p: Program, edges: map<Name, seq<Name>>) {
    && edges.Keys == p.tools.Keys && (forall n <- p.tools, d :: d in edges[n] <==> d in Edges(p.tools[n]))
    && Acyclic(edges)
  }

  /** How a run ends: every worker has left, every claimed dependency has its result, and, unless
      the run was cancelled, every level was started and every known tool sent down a channel was
      begun. */
  ghost predicate Completed(p: Program, s: State) {
    && (forall w <- s.workers :: w == Worker([], Exited))
    && (forall n <- s.runs :: s.runs[n].Done?)
    && (!s.cancelled ==> s.levels == [] && s.roots == Known(p, s.admitted))
  }

  /** Acyclic requirements leave no deadlock in any level: a state in which nothing can happen is
      the end of a completed run. */
  lemma NoDeadlock(p: Program, edges: map<Name, seq<Name>>, levels: seq<seq<Name>>, trace: seq<State>, k: nat)
    requires Execution(p, levels, trace) && k < |trace| && Stuck(p, trace[k]) && SortedGraph(p, edges)
    ensures Completed(p, trace[k])
  {
    hide Step, Known, Flat, Stuck, SortedGraph, Inv, Next;
    var s := trace[k];
    InvHolds(p, levels, trace, k);
    EveryoneLeft(p, edges, s);
    AllSettled(p, s);
    LevelToolsBegunInOrder(p, levels, trace, k);
    ExitedEmptiesQueue(p, levels, trace, k);
    if !s.cancelled {
      if s.workers != [] { assert s.workers[0] in s.workers; }
      NothingKnown(p);
      assert s.roots + [] == s.roots;
      if s.levels != [] {
        LevelCanStart(p, s);
        NothingHappens(p, s, 0, Level([]));
      }
    }
  }

  lemma NothingHappens(p: Program, s: State, t: nat, c: Choice)
    requires Stuck(p, s)
    ensures c.Cancel? || Step(p, s, t, c).None?
  {
  }

  lemma EveryoneLeft(p: Program, edges: map<Name, seq<Name>>, s: State)
    requires Inv(p, s) && Stuck(p, s) && SortedGraph(p, edges)
    ensures forall w <- s.workers :: w == Worker([], Exited)
  {
    hide Step, Stuck, Numbering, Inv, StackShape;
    var numbers: map<Name, nat> :| Numbering(edges, numbers);
    forall t | 0 <= t < |s.workers|
      ensures s.workers[t] == Worker([], Exited)
    {
      Shape(p, s, t);
      if !s.workers[t].mode.Exited? {
        SomeoneIsFree(p, edges, numbers, s, t);
        var u :| 0 <= u < |s.workers| && !s.workers[u].mode.Exited? && !Blocked(s, s.workers[u]);
        FreeWorkerSteps(p, s, u);
        NothingHappens(p, s, u, Finish(Failed));
      }
    }
  }

  lemma NothingKnown(p: Program)
    ensures Known(p, []) == []
  {
  }

  lemma LevelCanStart(p: Program, s: State)
    requires !s.cancelled && s.levels != [] && AllExited(s)
    ensures Step(p, s, 0, Level([])).Some?
  {
    assert multiset([]) <= multiset(s.levels[0]);
  }

  /** Both together, over whole runs: a run that nothing can prolong has completed, within the work
      there was at its start. */
  lemma MaximalRunsComplete(p: Program, edges: map<Name, seq<Name>>, names: seq<Name>, levels: seq<seq<Name>>,
                            trace: seq<State>)
    requires Execution(p, levels, trace) && Stuck(p, trace[|trace| - 1])
    requires SortedGraph(p, edges) && Covers(p, names)
    ensures Completed(p, trace[|trace| - 1]) && |trace| <= 1 + Work(p, names, Start(levels))
  {
    NoDeadlock(p, edges, levels, trace, |trace| - 1);
    RunsAreFinite(p, names, levels, trace, |trace| - 1);
  }

  /** And every run, however far it has come, can be prolonged to a completed one without being
      cancelled. */
  lemma {:induction false} EveryRunCanComplete(p: Program, edges: map<Name, seq<Name>>, names: seq<Name>,
                                               levels: seq<seq<Name>>, trace: seq<State>)
      returns (whole: seq<State>)
    requires Execution(p, levels, trace) && SortedGraph(p, edges) && Covers(p, names)
    ensures Execution(p, levels, whole) && trace <= whole
    ensures Completed(p, whole[|whole| - 1]) && whole[|whole| - 1].cancelled == trace[|trace| - 1].cancelled
    decreases Work(p, names, trace[|trace| - 1])
  {
    hide *;
    var s := LastOf(p, levels, trace);
    if t: nat, c: Choice :| !c.Cancel? && Step(p, s, t, c).Some? {
      var s' := Step(p, s, t, c).value;
      InvHolds(p, levels, trace, |trace| - 1);
      Prolonged(p, levels, trace, t, c);
      StepWork(p, names, s, s');
      assert (trace + [s'])[|trace + [s']| - 1] == s';
      whole := EveryRunCanComplete(p, edges, names, levels, trace + [s']);
      assert trace <= trace + [s'];
    } else {
      NothingElse(p, s);
      NoDeadlock(p, edges, levels, trace, |trace| - 1);
      whole := trace;
    }
  }

  lemma LastOf(p: Program, levels: seq<seq<Name>>, trace: seq<State>) returns (s: State)
    requires Execution(p, levels, trace)
    ensures trace != [] && s == trace[|trace| - 1]
  {
    s := trace[|trace| - 1];
  }

  lemma NothingElse(p: Program, s: State)
    requires !exists t: nat, c: Choice :: !c.Cancel? && Step(p, s, t, c).Some?
    ensures Stuck(p, s)
  {
  }

  lemma Prolonged(p: Program, levels: seq<seq<Name>>, trace: seq<State>, t: nat, c: Choice)
    requires Execution(p, levels, trace) && !c.Cancel? && Step(p, trace[|trace| - 1], t, c).Some?
    ensures var s' := Step(p, trace[|trace| - 1], t, c).value;
            && Next(p, trace[|trace| - 1], s') && Execution(p, levels, trace + [s'])
            && s'.cancelled == trace[|trace| - 1].cancelled
  {
    var s := trace[|trace| - 1];
    var s' := Step(p, s, t, c).value;
    hide Step;
    assert Step(p, s, t, c) == Some(s');
    if c.Level? {
      StartedLevel(p, s, s', t, c);
    } else {
      NotCancelled(p, s, t, c);
    }
  }

  lemma NotCancelled(p: Program, s: State, t: nat, c: Choice)
    requires !c.Cancel? && !c.Level? && Step(p, s, t, c).Some?
    ensures Step(p, s, t, c).value.cancelled == s.cancelled
  {
    if !s.workers[t].mode.Idle? { InsideCall(p, s, t, c); }
  }

  ghost predicate EndsWaiting(p: Program, trace: seq<State>, name: Name) {
    && trace != [] && Stuck(p, trace[|trace| - 1])
    && exists w :: w in trace[|trace| - 1].workers && w.mode == Wait(name)
  }

  /** A level tool with one method that needs `x`, and `x` requiring itself. */
  function SelfRequiring(root: Name, x: Name): Program {
    Program(map[root := Tool([], [[x]]), x := Tool([x], [])], map[], 1)
  }

  /** The run of one worker, state by state. */
  function Phase(root: Name, x: Name, i: nat): State {
    var outer, inner := Frame(root, true, Body([x], [])), Frame(x, false, Needs([x]));
    var started := State([Worker([], Idle)], map[], [root], [], false, [root], [], [], []);
    var begun := started.(workers := [Worker([Frame(root, true, Body([], [[x]]))], Run)], queue := [], roots := [root]);
    var claimed := begun.(workers := [Worker([inner, outer], Run)], runs := map[x := Running(0)], claims := [x]);
    match i
    case 0 => Start([[root]])
    case 1 => started
    case 2 => begun
    case 3 => begun.(workers := [Worker([outer], Run)])
    case 4 => begun.(workers := [Worker([outer], Call(x))])
    case 5 => claimed
    case 6 => claimed.(workers := [Worker([inner, outer], Call(x))])
    case _ => claimed.(workers := [Worker([inner, outer], Wait(x))])
  }

  lemma PhaseSteps(root: Name, x: Name, i: nat)
    requires root != x && 0 < i < 7
    ensures Next(SelfRequiring(root, x), Phase(root, x, i), Phase(root, x, i + 1))
  {
    var p, s, s' := SelfRequiring(root, x), Phase(root, x, i), Phase(root, x, i + 1);
    assert SetWorker(s, 0, s'.workers[0]).workers == s'.workers;
    if i == 1 {
      assert s.queue[1..] == [] && s.roots + [root] == [root];
    } else if i == 2 {
      var none: seq<seq<Name>> := [];
      assert s.workers[0].stack[1..] == [] && [[x]][1..] == none;
      var top := Frame(root, true, Body([x], none));
      assert [top] + s.workers[0].stack[1..] == [top] == s'.workers[0].stack;
    } else if i == 4 {
      var outer, inner := s.workers[0].stack[0], s'.workers[0].stack[0];
      assert [inner] + [outer] == [inner, outer] && s.claims + [x] == [x];
    }
    assert Step(p, s, 0, if i == 2 then Begin else Go) == Some(s');
  }

  lemma PhaseStarts(root: Name, x: Name)
    ensures Next(SelfRequiring(root, x), Phase(root, x, 0), Phase(root, x, 1))
  {
    var p, s, s' := SelfRequiring(root, x), Phase(root, x, 0), Phase(root, x, 1);
    assert seq(1, _ => Worker([], Idle)) == s'.workers;
    assert s.levels[1..] == [] && s.admitted + [root] == [root];
    assert Step(p, s, 0, Level([root])) == Some(s');
  }

  /** Acyclicity is needed: a dependency that requires itself waits for its own result, and so does the
      level tool that called it, for ever unless the run is cancelled. */
  lemma SelfRequirementDeadlocks(root: Name, x: Name)
    requires root != x
    ensures exists trace ::
              && Execution(SelfRequiring(root, x), [[root]], trace)
              && EndsWaiting(SelfRequiring(root, x), trace, x)
  {
    hide Next;
    var p := SelfRequiring(root, x);
    var trace := seq(8, i requires 0 <= i < 8 => Phase(root, x, i));
    PhaseStarts(root, x);
    forall i | 1 < i < |trace| ensures Next(p, trace[i - 1], trace[i]) { PhaseSteps(root, x, i - 1); }
    var last := trace[7];
    assert last.workers[0] in last.workers;
    assert Execution(p, [[root]], trace) && EndsWaiting(p, trace, x);
  }
}
