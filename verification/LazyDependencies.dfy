/**
 The lazy dependency protocol, as a state machine over the steps of workers.
 */
module LazyDependencies {
  import opened Basics

  // Several workers take the tools of one level from a channel, and a method candidate that needs
  // prerequisites calls `executeDependency` for each of them. A name is claimed under a mutex;
  // whoever finds it already claimed waits on the owner's `done` channel. Every atomic action of
  // one worker is one `Step`. A worker's Go call stack is a stack of frames, one for each tool body
  // or claimed dependency, the innermost first.

  type Name = string

  datatype Status = Installed | Already | WouldInstall | Virtual | Failed | SkippedWhen | SkippedUnavailable

  datatype ToolResult = ToolResult(tool: Name, status: Status)

  predicate DependencySucceeded(result: ToolResult) {
    result.status.Installed? || result.status.Already? || result.status.WouldInstall? || result.status.Virtual?
  }

  /** `needs` are the requirements effective on this host; `candidates` lists, for every method
      candidate in order, the prerequisites of that method. */
  datatype Tool = Tool(needs: seq<Name>, candidates: seq<seq<Name>>)

  /** What stays fixed during one run: the schema, the commits reconciled at startup and the
      number of tools that may run at once. */
  datatype Program = Program(tools: map<Name, Tool>, recovered: map<Name, ToolResult>, jobs: nat)

  /** Where one frame stands. `Needs` walks the tool's own requirements, `Body` walks the
      candidates: `current` is what is left of the prerequisites of the candidate under way. */
  datatype Pc =
    | Needs(todo: seq<Name>)
    | Body(current: seq<Name>, rest: seq<seq<Name>>)
    | Closing(result: ToolResult)

  datatype Frame = Frame(name: Name, root: bool, pc: Pc)

  /** What `executeDependency` hands back: the owner's result, or the context's error. */
  datatype Outcome = Got(result: ToolResult) | Cancelled

  datatype Mode = Idle | Run | Call(name: Name) | Wait(name: Name) | Return(name: Name, outcome: Outcome) | Exited

  datatype Worker = Worker(stack: seq<Frame>, mode: Mode)

  datatype DependencyRun = Running(owner: nat) | Done(result: ToolResult)

  /** One return of `executeDependency` to its caller, as the caller stood when it called. */
  datatype Returned = Returned(worker: nat, caller: Frame, name: Name, outcome: Outcome)

  /** The table of `runs` lives as long as the whole run; the workers and their channel are those
      of one level, and `levels` are still to come. `admitted`, `claims`, `roots` and `handed` are
      history: the tools sent down a channel, the dependency bodies begun, the level tools begun,
      and every value handed back to a caller. */
  datatype State = State(
    workers: seq<Worker>,
    runs: map<Name, DependencyRun>,
    queue: seq<Name>,
    levels: seq<seq<Name>>,
    cancelled: bool,
    admitted: seq<Name>,
    claims: seq<Name>,
    roots: seq<Name>,
    handed: seq<Returned>)

  /** The choices an environment makes for a worker that is free to go on; the cancellation of the
      whole run; and the start of the next level, with the tools that the requirement check, the
      security filter and the batch leave to the workers. */
  datatype Choice = Go | Begin | Skip | Finish(status: Status) | Abandon | Cancel | Level(names: seq<Name>)

  // ----- one step -----

  function ToolOf(p: Program, name: Name): Tool {
    if name in p.tools then p.tools[name] else Tool([], [])
  }

  /** The name a frame is about to call, or is waiting for. */
  function Pending(pc: Pc): Option<Name> {
    match pc
    case Needs(todo) => if todo == [] then None else Some(todo[0])
    case Body(current, _) => if current == [] then None else Some(current[0])
    case Closing(_) => None
  }

  /** The frame of a freshly claimed dependency. */
  function ClaimedFrame(p: Program, name: Name): Frame {
    Frame(name, false,
          if name in p.tools then Needs(p.tools[name].needs) else Closing(ToolResult(name, Failed)))
  }

  /** How a frame goes on after the pending call came back. */
  function Resume(frame: Frame, outcome: Outcome): Frame
    requires Pending(frame.pc).Some?
  {
    var ok := outcome.Got? && DependencySucceeded(outcome.result);
    match frame.pc
    case Needs(todo) =>
      if ok then frame.(pc := Needs(todo[1..])) else frame.(pc := Closing(ToolResult(frame.name, Failed)))
    case Body(current, rest) =>
      frame.(pc := Body(if ok then current[1..] else [], rest))
  }

  function SetWorker(s: State, t: nat, w: Worker): State
    requires t < |s.workers|
  {
    s.(workers := s.workers[t := w])
  }

  function StepIdle(p: Program, s: State, t: nat): Option<State>
    requires t < |s.workers|
  {
    if s.cancelled || s.queue == [] then
      Some(SetWorker(s, t, s.workers[t].(mode := Exited)))
    else
      var name, rest := s.queue[0], s.queue[1..];
      if name !in p.tools then
        Some(s.(queue := rest))
      else
        var frame := Frame(name, true, Body([], p.tools[name].candidates));
        Some(SetWorker(s, t, Worker([frame], Run)).(queue := rest, roots := s.roots + [name]))
  }

  function StepCall(p: Program, s: State, t: nat, name: Name): Option<State>
    requires t < |s.workers|
  {
    var w := s.workers[t];
    if name in p.recovered then
      Some(SetWorker(s, t, w.(mode := Return(name, Got(p.recovered[name])))))
    else if name in s.runs then
      Some(SetWorker(s, t, w.(mode := Wait(name))))
    else
      Some(SetWorker(s, t, Worker([ClaimedFrame(p, name)] + w.stack, Run))
           .(runs := s.runs[name := Running(t)], claims := s.claims + [name]))
  }

  function StepWait(s: State, t: nat, name: Name, c: Choice): Option<State>
    requires t < |s.workers|
  {
    var w := s.workers[t];
    if c.Abandon? then
      if s.cancelled then Some(SetWorker(s, t, w.(mode := Return(name, Cancelled)))) else None
    else if name in s.runs && s.runs[name].Done? then
      Some(SetWorker(s, t, w.(mode := Return(name, Got(s.runs[name].result)))))
    else
      None
  }

  function StepReturn(s: State, t: nat, name: Name, outcome: Outcome): Option<State>
    requires t < |s.workers|
  {
    var w := s.workers[t];
    if w.stack == [] || Pending(w.stack[0].pc).None? then None
    else
      Some(SetWorker(s, t, Worker([Resume(w.stack[0], outcome)] + w.stack[1..], Run))
           .(handed := s.handed + [Returned(t, w.stack[0], name, outcome)]))
  }

  function StepClose(s: State, t: nat, frame: Frame, result: ToolResult): Option<State>
    requires t < |s.workers| && s.workers[t].stack != []
  {
    var w := s.workers[t];
    if frame.root then
      Some(SetWorker(s, t, Worker(w.stack[1..], Idle)))
    else
      Some(SetWorker(s, t, Worker(w.stack[1..], Return(frame.name, Got(result))))
           .(runs := s.runs[frame.name := Done(result)]))
  }

  function StepRun(p: Program, s: State, t: nat, c: Choice): Option<State>
    requires t < |s.workers|
  {
    var w := s.workers[t];
    if w.stack == [] then None
    else
      var frame := w.stack[0];
      if Pending(frame.pc).Some? then
        Some(SetWorker(s, t, w.(mode := Call(Pending(frame.pc).value))))
      else
        match frame.pc
        case Needs(_) =>
          Some(SetTop(s, t, Body([], ToolOf(p, frame.name).candidates)))
        case Closing(result) =>
          StepClose(s, t, frame, result)
        case Body(_, rest) =>
          if c.Finish? then Some(SetTop(s, t, Closing(ToolResult(frame.name, c.status))))
          else if rest == [] then None
          else if c.Begin? then Some(SetTop(s, t, Body(rest[0], rest[1..])))
          else if c.Skip? then Some(SetTop(s, t, Body([], rest[1..])))
          else None
  }

  function SetTop(s: State, t: nat, pc: Pc): State
    requires t < |s.workers| && s.workers[t].stack != []
  {
    var w := s.workers[t];
    SetWorker(s, t, w.(stack := [w.stack[0].(pc := pc)] + w.stack[1..]))
  }

  predicate AllExited(s: State) {
    forall w <- s.workers :: w.mode.Exited?
  }

  /** Tools of a level, none oftener than the level lists it, and no commit reconciled at startup. */
  predicate Admits(p: Program, level: seq<Name>, names: seq<Name>) {
    multiset(names) <= multiset(level) && forall n <- names :: n !in p.recovered
  }

  /** One job runs the tools itself, one after the other; more share them. */
  function Crew(p: Program, names: seq<Name>): nat {
    var most := if p.jobs <= 1 then 1 else p.jobs;
    if most <= |names| then most else |names|
  }

  /** The next level starts once every worker of the last one has left. The table stays. */
  function StepLevel(p: Program, s: State, names: seq<Name>): Option<State> {
    if s.cancelled || s.levels == [] || !AllExited(s) || !Admits(p, s.levels[0], names) then None
    else
      Some(s.(workers := seq(Crew(p, names), _ => Worker([], Idle)), queue := names,
              levels := s.levels[1..], admitted := s.admitted + names))
  }

  /** One atomic action of worker `t`, the start of a level, or the cancellation of the whole run. */
  function Step(p: Program, s: State, t: nat, c: Choice): Option<State> {
    if c.Cancel? then (if s.cancelled then None else Some(s.(cancelled := true)))
    else if c.Level? then StepLevel(p, s, c.names)
    else if t >= |s.workers| then None
    else
      match s.workers[t].mode
      case Idle => StepIdle(p, s, t)
      case Run => StepRun(p, s, t, c)
      case Call(name) => StepCall(p, s, t, name)
      case Wait(name) => StepWait(s, t, name, c)
      case Return(name, outcome) => StepReturn(s, t, name, outcome)
      case Exited => None
  }

  ghost predicate Next(p: Program, s: State, s': State) {
    exists t: nat, c: Choice :: Step(p, s, t, c) == Some(s')
  }

  function Start(levels: seq<seq<Name>>): State {
    State([], map[], [], levels, false, [], [], [], [])
  }

  /** A run over all its levels: the first state is `Start`, every later one comes from a step. */
  ghost predicate Execution(p: Program, levels: seq<seq<Name>>, trace: seq<State>) {
    && trace != []
    && trace[0] == Start(levels)
    && forall i :: 0 < i < |trace| ==> Next(p, trace[i - 1], trace[i])
  }

  // ----- the invariant -----

  /** Every name a frame has still to call is a requirement of its own tool: of the tool itself, which
      a tool of a level does not call, or of one of its methods. */
  ghost predicate OwnNames(p: Program, frame: Frame) {
    match frame.pc
    case Needs(todo) => !frame.root && frame.name in p.tools && forall d <- todo :: d in p.tools[frame.name].needs
    case Body(current, rest) =>
      && frame.name in p.tools
      && (forall d <- current :: d in Prerequisites(p.tools[frame.name]))
      && (forall c <- rest :: forall d <- c :: d in Prerequisites(p.tools[frame.name]))
    case Closing(_) => true
  }

  /** What the methods of a tool require. */
  function Prerequisites(tool: Tool): set<Name> {
    set c, d | c in tool.candidates && d in c :: d
  }

  /** All requirements of a tool: its own and those of every candidate. */
  function Edges(tool: Tool): set<Name> {
    (set d | d in tool.needs) + Prerequisites(tool)
  }

  /** A worker's stack: only the outermost frame is a level tool, and every outer frame is
      waiting for the frame it called. */
  ghost predicate StackShape(p: Program, stack: seq<Frame>) {
    && (forall i :: 0 <= i < |stack| ==> OwnNames(p, stack[i]))
    && (forall i :: 0 <= i < |stack| ==> (stack[i].root <==> i == |stack| - 1))
    && (forall i :: 0 < i < |stack| ==> Pending(stack[i].pc) == Some(stack[i - 1].name))
  }

  predicate Requires(p: Program, caller: Name, n: Name) {
    caller in p.tools && n in Edges(p.tools[caller])
  }

  lemma PendingIsEdge(p: Program, stack: seq<Frame>, i: nat)
    requires StackShape(p, stack) && i < |stack| && Pending(stack[i].pc).Some?
    ensures Requires(p, stack[i].name, Pending(stack[i].pc).value)
  {
    assert OwnNames(p, stack[i]);
  }

  lemma WaitsForInner(p: Program, stack: seq<Frame>, i: nat)
    requires StackShape(p, stack) && 0 < i < |stack|
    ensures Pending(stack[i].pc) == Some(stack[i - 1].name)
  {
  }

  ghost predicate WorkerShape(p: Program, s: State, w: Worker) {
    && StackShape(p, w.stack)
    && match w.mode
       case Idle => w.stack == []
       case Exited => w.stack == []
       case Run => w.stack != []
       case Call(name) => w.stack != [] && Pending(w.stack[0].pc) == Some(name)
       case Wait(name) => w.stack != [] && Pending(w.stack[0].pc) == Some(name) && name in s.runs
       case Return(name, outcome) =>
         && w.stack != [] && Pending(w.stack[0].pc) == Some(name)
         && Authentic(p, s, name, outcome)
  }

  /** The outcome handed out for `name` is the owner's result, a reconciled commit, or the
      error of a cancelled context. */
  ghost predicate Authentic(p: Program, s: State, name: Name, outcome: Outcome) {
    match outcome
    case Cancelled => s.cancelled
    case Got(result) =>
      if name in p.recovered then result == p.recovered[name]
      else name in s.runs && s.runs[name] == Done(result)
  }

  ghost predicate HasFrame(w: Worker, name: Name) {
    exists i :: 0 <= i < |w.stack| && !w.stack[i].root && w.stack[i].name == name
  }

  ghost predicate OwnedFrames(s: State, t: nat)
    requires t < |s.workers|
  {
    var stack := s.workers[t].stack;
    && (forall i :: 0 <= i < |stack| && !stack[i].root ==>
         stack[i].name in s.runs && s.runs[stack[i].name] == Running(t))
    && (forall i, j :: 0 <= i < j < |stack| && !stack[i].root && !stack[j].root ==> stack[i].name != stack[j].name)
  }

  ghost predicate Distinct(xs: seq<Name>) {
    forall i, j :: 0 <= i < j < |xs| ==> xs[i] != xs[j]
  }

  ghost predicate Inv(p: Program, s: State) {
    && (forall t :: 0 <= t < |s.workers| ==> WorkerShape(p, s, s.workers[t]))
    && (forall t :: 0 <= t < |s.workers| ==> OwnedFrames(s, t))
    && (forall n <- s.runs :: s.runs[n].Running? ==>
         s.runs[n].owner < |s.workers| && HasFrame(s.workers[s.runs[n].owner], n))
    && Distinct(s.claims)
    && (forall n :: n in s.claims <==> n in s.runs)
    && (forall n <- s.runs :: n !in p.recovered)
    && (forall r <- s.handed :: Authentic(p, s, r.name, r.outcome))
  }

  lemma Shape(p: Program, s: State, t: nat)
    requires Inv(p, s) && t < |s.workers|
    ensures WorkerShape(p, s, s.workers[t]) && OwnedFrames(s, t)
    ensures s.workers[t].stack != [] ==> OwnNames(p, s.workers[t].stack[0])
  {
  }

  /** What a step of worker `t` may do to the shared table: it settles or claims names of its own. */
  ghost predicate OwnChanges(s: State, s': State, t: nat) {
    && (s.cancelled ==> s'.cancelled)
    && (forall n <- s.runs :: n in s'.runs)
    && (forall n <- s'.runs :: (n in s.runs && s'.runs[n] == s.runs[n])
                               || n !in s.runs || (s.runs[n] == Running(t) && s'.runs[n].Done?))
  }

  lemma AuthenticKept(p: Program, s: State, s': State, t: nat, name: Name, outcome: Outcome)
    requires OwnChanges(s, s', t) && Authentic(p, s, name, outcome)
    ensures Authentic(p, s', name, outcome)
  {
  }

  /** The invariant after worker `t` moved from `s` to `s'`, from what holds of `t` alone. */
  lemma InvFromOwnMove(p: Program, s: State, s': State, t: nat)
    requires Inv(p, s) && OwnChanges(s, s', t)
    requires t < |s.workers| == |s'.workers| && s'.workers == s.workers[t := s'.workers[t]]
    requires WorkerShape(p, s', s'.workers[t]) && OwnedFrames(s', t)
    requires forall n <- s'.runs :: s'.runs[n] == Running(t) ==> HasFrame(s'.workers[t], n)
    requires forall n <- s'.runs :: n !in s.runs ==> s'.runs[n] == Running(t)
    requires Distinct(s'.claims) && forall n :: n in s'.claims <==> n in s'.runs
    requires forall n <- s'.runs :: n !in p.recovered
    requires forall r <- s'.handed :: r in s.handed || Authentic(p, s', r.name, r.outcome)
    ensures Inv(p, s')
  {
    forall u | 0 <= u < |s'.workers|
      ensures WorkerShape(p, s', s'.workers[u]) && OwnedFrames(s', u)
    {
      if u != t {
        assert WorkerShape(p, s, s.workers[u]) && OwnedFrames(s, u);
      }
    }
    forall r <- s'.handed
      ensures Authentic(p, s', r.name, r.outcome)
    {
      if r in s.handed {
        AuthenticKept(p, s, s', t, r.name, r.outcome);
      }
    }
    forall n <- s'.runs | s'.runs[n].Running?
      ensures s'.runs[n].owner < |s'.workers| && HasFrame(s'.workers[s'.runs[n].owner], n)
    {
      if s'.runs[n] != Running(t) {
        assert n in s.runs;
      }
    }
  }

  /** A worker's move that leaves the shared table alone and keeps the names on its stack. */
  lemma InvSameNames(p: Program, s: State, s': State, t: nat)
    requires Inv(p, s) && t < |s.workers| == |s'.workers| && s'.workers == s.workers[t := s'.workers[t]]
    requires s'.runs == s.runs && s'.claims == s.claims && (s.cancelled ==> s'.cancelled)
    requires WorkerShape(p, s', s'.workers[t])
    requires |s'.workers[t].stack| == |s.workers[t].stack|
    requires forall i :: 0 <= i < |s.workers[t].stack| ==>
               && s'.workers[t].stack[i].name == s.workers[t].stack[i].name
               && s'.workers[t].stack[i].root == s.workers[t].stack[i].root
    requires forall r <- s'.handed :: r in s.handed || Authentic(p, s', r.name, r.outcome)
    ensures Inv(p, s')
  {
    assert OwnedFrames(s, t);
    forall n <- s'.runs | s'.runs[n] == Running(t)
      ensures HasFrame(s'.workers[t], n)
    {
      assert HasFrame(s.workers[t], n);
      var i :| 0 <= i < |s.workers[t].stack| && !s.workers[t].stack[i].root && s.workers[t].stack[i].name == n;
      assert s'.workers[t].stack[i].name == n;
    }
    InvFromOwnMove(p, s, s', t);
  }

  lemma KeepIdle(p: Program, s: State, t: nat)
    requires Inv(p, s) && t < |s.workers| && s.workers[t].mode.Idle? && StepIdle(p, s, t).Some?
    ensures Inv(p, StepIdle(p, s, t).value)
  {
    var s' := StepIdle(p, s, t).value;
    assert WorkerShape(p, s, s.workers[t]);
    assert forall n <- s.runs :: s.runs[n] == Running(t) ==> HasFrame(s.workers[t], n);
    if s'.workers == s.workers {
      assert s'.workers == s.workers[t := s.workers[t]];
    }
    InvFromOwnMove(p, s, s', t);
  }

  lemma KeepCall(p: Program, s: State, t: nat, name: Name)
    requires Inv(p, s) && t < |s.workers| && s.workers[t].mode == Call(name)
    ensures StepCall(p, s, t, name).Some? && Inv(p, StepCall(p, s, t, name).value)
  {
    assert WorkerShape(p, s, s.workers[t]);
    if name in p.recovered || name in s.runs {
      InvSameNames(p, s, StepCall(p, s, t, name).value, t);
    } else {
      KeepClaim(p, s, t, name);
    }
  }

  lemma ClaimedStack(p: Program, stack: seq<Frame>, name: Name)
    requires StackShape(p, stack) && stack != [] && Pending(stack[0].pc) == Some(name)
    ensures StackShape(p, [ClaimedFrame(p, name)] + stack)
  {
    var stack' := [ClaimedFrame(p, name)] + stack;
    assert forall i :: 0 < i < |stack'| ==> stack'[i] == stack[i - 1];
    assert OwnNames(p, stack'[0]);
  }

  lemma DistinctSnoc(xs: seq<Name>, x: Name)
    requires Distinct(xs) && x !in xs
    ensures Distinct(xs + [x])
  {
  }

  lemma KeepClaim(p: Program, s: State, t: nat, name: Name)
    requires Inv(p, s) && t < |s.workers| && s.workers[t].mode == Call(name)
    requires name !in p.recovered && name !in s.runs
    ensures Inv(p, StepCall(p, s, t, name).value)
  {
    hide StackShape, Authentic, Distinct;
    var s' := StepCall(p, s, t, name).value;
    var stack, stack' := s.workers[t].stack, s'.workers[t].stack;
    Shape(p, s, t);
    ClaimedStack(p, stack, name);
    DistinctSnoc(s.claims, name);
    assert forall i :: 0 < i < |stack'| ==> stack'[i] == stack[i - 1];
    assert OwnedFrames(s', t);
    forall n <- s'.runs | s'.runs[n] == Running(t)
      ensures HasFrame(s'.workers[t], n)
    {
      if n == name {
        assert stack'[0].name == n;
      } else {
        assert HasFrame(s.workers[t], n);
        var i :| 0 <= i < |stack| && !stack[i].root && stack[i].name == n;
        assert stack'[i + 1].name == n;
      }
    }
    InvFromOwnMove(p, s, s', t);
  }

  lemma KeepWait(p: Program, s: State, t: nat, name: Name, c: Choice)
    requires Inv(p, s) && t < |s.workers| && s.workers[t].mode == Wait(name) && StepWait(s, t, name, c).Some?
    ensures Inv(p, StepWait(s, t, name, c).value)
  {
    assert WorkerShape(p, s, s.workers[t]);
    InvSameNames(p, s, StepWait(s, t, name, c).value, t);
  }

  lemma KeepReturn(p: Program, s: State, t: nat, name: Name, outcome: Outcome)
    requires Inv(p, s) && t < |s.workers| && s.workers[t].mode == Return(name, outcome)
    ensures StepReturn(s, t, name, outcome).Some? && Inv(p, StepReturn(s, t, name, outcome).value)
  {
    var s' := StepReturn(s, t, name, outcome).value;
    var stack, stack' := s.workers[t].stack, s'.workers[t].stack;
    assert WorkerShape(p, s, s.workers[t]);
    assert forall i :: 0 < i < |stack'| ==> stack'[i] == stack[i];
    assert OwnNames(p, stack[0]);
    assert OwnNames(p, stack'[0]);
    assert StackShape(p, stack');
    InvSameNames(p, s, s', t);
  }

  lemma KeepTop(p: Program, s: State, t: nat, pc: Pc)
    requires Inv(p, s) && t < |s.workers| && s.workers[t].mode.Run?
    requires s.workers[t].stack != [] && OwnNames(p, s.workers[t].stack[0].(pc := pc))
    ensures Inv(p, SetTop(s, t, pc))
  {
    var s' := SetTop(s, t, pc);
    var stack, stack' := s.workers[t].stack, s'.workers[t].stack;
    assert WorkerShape(p, s, s.workers[t]);
    assert forall i :: 0 < i < |stack'| ==> stack'[i] == stack[i];
    assert StackShape(p, stack');
    InvSameNames(p, s, s', t);
  }

  lemma TailShape(p: Program, stack: seq<Frame>)
    requires stack != [] && StackShape(p, stack)
    ensures StackShape(p, stack[1..])
  {
    assert forall i :: 0 <= i < |stack[1..]| ==> stack[1..][i] == stack[i + 1];
  }

  lemma FrameBelow(w: Worker, w': Worker, n: Name)
    requires HasFrame(w, n) && w.stack != [] && w'.stack == w.stack[1..]
    requires w.stack[0].root || w.stack[0].name != n
    ensures HasFrame(w', n)
  {
    var i :| 0 <= i < |w.stack| && !w.stack[i].root && w.stack[i].name == n;
    assert w'.stack[i - 1].name == n;
  }

  lemma KeepClose(p: Program, s: State, t: nat, result: ToolResult)
    requires Inv(p, s) && t < |s.workers| && s.workers[t].mode.Run?
    requires s.workers[t].stack != [] && s.workers[t].stack[0].pc == Closing(result)
    ensures StepClose(s, t, s.workers[t].stack[0], result).Some?
    ensures Inv(p, StepClose(s, t, s.workers[t].stack[0], result).value)
  {
    hide HasFrame, StackShape, Distinct;
    var frame := s.workers[t].stack[0];
    var s' := StepClose(s, t, frame, result).value;
    assert WorkerShape(p, s, s.workers[t]) && OwnedFrames(s, t);
    TailShape(p, s.workers[t].stack);
    forall n <- s'.runs | s'.runs[n] == Running(t) ensures HasFrame(s'.workers[t], n) {
      assert HasFrame(s.workers[t], n);
      FrameBelow(s.workers[t], s'.workers[t], n);
    }
    CloseShape(p, s, t, result);
    InvFromOwnMove(p, s, s', t);
  }

  lemma CloseShape(p: Program, s: State, t: nat, result: ToolResult)
    requires Inv(p, s) && t < |s.workers| && s.workers[t].mode.Run?
    requires s.workers[t].stack != [] && s.workers[t].stack[0].pc == Closing(result)
    ensures var s' := StepClose(s, t, s.workers[t].stack[0], result).value;
            WorkerShape(p, s', s'.workers[t]) && OwnedFrames(s', t)
  {
    hide HasFrame, Distinct;
    var frame := s.workers[t].stack[0];
    var s' := StepClose(s, t, frame, result).value;
    var stack, stack' := s.workers[t].stack, s'.workers[t].stack;
    assert WorkerShape(p, s, s.workers[t]) && OwnedFrames(s, t);
    assert forall i :: 0 <= i < |stack'| ==> stack'[i] == stack[i + 1];
    TailShape(p, stack);
    if !frame.root {
      assert stack[0].name in s.runs && s.runs[frame.name] == Running(t);
    }
  }

  lemma KeepRun(p: Program, s: State, t: nat, c: Choice)
    requires Inv(p, s) && t < |s.workers| && s.workers[t].mode.Run? && StepRun(p, s, t, c).Some?
    ensures Inv(p, StepRun(p, s, t, c).value)
  {
    var w := s.workers[t];
    assert WorkerShape(p, s, w) && OwnNames(p, w.stack[0]);
    var frame := w.stack[0];
    if Pending(frame.pc).Some? {
      InvSameNames(p, s, StepRun(p, s, t, c).value, t);
    } else {
      match frame.pc
      case Needs(_) => KeepTop(p, s, t, Body([], ToolOf(p, frame.name).candidates));
      case Closing(result) => KeepClose(p, s, t, result);
      case Body(_, rest) =>
        if c.Finish? {
          KeepTop(p, s, t, Closing(ToolResult(frame.name, c.status)));
        } else if c.Begin? {
          assert rest[0] in rest && forall r <- rest[1..] :: r in rest;
          KeepTop(p, s, t, Body(rest[0], rest[1..]));
        } else {
          assert forall r <- rest[1..] :: r in rest;
          KeepTop(p, s, t, Body([], rest[1..]));
        }
    }
  }

  /** When every worker has left, every claimed dependency has its result. */
  lemma AllSettled(p: Program, s: State)
    requires Inv(p, s) && AllExited(s)
    ensures forall n <- s.runs :: s.runs[n].Done?
  {
    forall u | 0 <= u < |s.workers|
      ensures s.workers[u].stack == []
    {
      assert WorkerShape(p, s, s.workers[u]) && s.workers[u] in s.workers;
    }
    assert forall n <- s.runs :: s.runs[n].Running? ==> HasFrame(s.workers[s.runs[n].owner], n);
  }

  lemma KeepLevel(p: Program, s: State, names: seq<Name>)
    requires Inv(p, s) && StepLevel(p, s, names).Some?
    ensures Inv(p, StepLevel(p, s, names).value)
  {
    AllSettled(p, s);
    var s' := StepLevel(p, s, names).value;
    assert forall r <- s'.handed :: Authentic(p, s, r.name, r.outcome);
  }

  lemma InvKept(p: Program, s: State, s': State)
    requires Inv(p, s) && Next(p, s, s')
    ensures Inv(p, s')
  {
    var t: nat, c: Choice :| Step(p, s, t, c) == Some(s');
    if c.Level? {
      KeepLevel(p, s, c.names);
    } else if c.Cancel? {
      forall u | 0 <= u < |s'.workers|
        ensures WorkerShape(p, s', s'.workers[u]) && OwnedFrames(s', u)
      {
        assert WorkerShape(p, s, s.workers[u]) && OwnedFrames(s, u);
      }
    } else {
      match s.workers[t].mode
      case Idle => KeepIdle(p, s, t);
      case Run => KeepRun(p, s, t, c);
      case Call(name) => KeepCall(p, s, t, name);
      case Wait(name) => KeepWait(p, s, t, name, c);
      case Return(name, outcome) => KeepReturn(p, s, t, name, outcome);
      case Exited =>
    }
  }

  lemma {:induction false} InvHolds(p: Program, levels: seq<seq<Name>>, trace: seq<State>, k: nat)
    requires Execution(p, levels, trace) && k < |trace|
    ensures Inv(p, trace[k])
  {
    if k > 0 {
      InvHolds(p, levels, trace, k - 1);
      InvKept(p, trace[k - 1], trace[k]);
    }
  }

  /** Single flight over the whole run, whatever the levels: in every interleaving a dependency's body
      is begun at most once, never for a commit reconciled at startup, and all callers that were
      not cancelled got the same result: the one its owner recorded. */
  lemma SingleFlight(p: Program, levels: seq<seq<Name>>, trace: seq<State>, k: nat)
    requires Execution(p, levels, trace) && k < |trace|
    ensures Distinct(trace[k].claims)
    ensures forall n <- trace[k].claims :: n !in p.recovered
    ensures forall r <- trace[k].handed :: r.outcome.Cancelled? ==> trace[k].cancelled
    ensures forall r <- trace[k].handed :: r.outcome.Got? ==>
              if r.name in p.recovered then r.outcome.result == p.recovered[r.name]
              else r.name in trace[k].runs && trace[k].runs[r.name] == Done(r.outcome.result)
    ensures forall r, q | r in trace[k].handed && q in trace[k].handed ::
              r.name == q.name && r.outcome.Got? && q.outcome.Got? ==> r.outcome == q.outcome
  {
    InvHolds(p, levels, trace, k);
    var s := trace[k];
    forall r | r in s.handed
      ensures Authentic(p, s, r.name, r.outcome)
    {
    }
  }

  // ----- the level's own tools -----

  function Known(p: Program, names: seq<Name>): seq<Name> {
    if names == [] then []
    else (if names[0] in p.tools then [names[0]] else []) + Known(p, names[1..])
  }

  lemma {:induction false} KnownConcat(p: Program, a: seq<Name>, b: seq<Name>)
    ensures Known(p, a + b) == Known(p, a) + Known(p, b)
    decreases |a|
  {
    if a == [] {
      assert a + b == b;
    } else {
      assert (a + b)[1..] == a[1..] + b;
      KnownConcat(p, a[1..], b);
    }
  }

  function Flat(levels: seq<seq<Name>>): seq<Name> {
    if levels == [] then [] else levels[0] + Flat(levels[1..])
  }

  /** A worker inside a call leaves the channel alone and does not leave. */
  lemma InsideCall(p: Program, s: State, t: nat, c: Choice)
    requires !c.Cancel? && !c.Level? && t < |s.workers| && !s.workers[t].mode.Idle? && Step(p, s, t, c).Some?
    ensures var s' := Step(p, s, t, c).value;
            && SameChannel(s, s')
            && s'.workers == s.workers[t := s'.workers[t]] && !s'.workers[t].mode.Exited?
  {
    var w := s.workers[t];
    match w.mode
    case Run =>
      if Pending(w.stack[0].pc).None? {
        match w.stack[0].pc
        case Needs(_) =>
        case Body(_, rest) =>
        case Closing(result) =>
      }
    case Call(name) =>
    case Wait(name) =>
    case Return(name, outcome) =>
    case Exited =>
  }

  ghost predicate SameChannel(s: State, s': State) {
    && |s'.workers| == |s.workers| && s'.queue == s.queue && s'.roots == s.roots && s'.cancelled == s.cancelled
    && s'.levels == s.levels && s'.admitted == s.admitted
  }

  /** Within a level only a worker that is idle touches the channel, and it takes the first entry
      or leaves. */
  lemma ChannelStep(p: Program, s: State, s': State, t: nat, c: Choice)
    requires Step(p, s, t, c) == Some(s') && !c.Level?
    ensures |s'.workers| == |s.workers| && (s.cancelled ==> s'.cancelled)
    ensures s'.levels == s.levels && s'.admitted == s.admitted
    ensures (s'.queue == s.queue && s'.roots == s.roots)
         || (s.queue != [] && s'.queue == s.queue[1..] && s'.roots + Known(p, s'.queue) == s.roots + Known(p, s.queue))
    ensures forall u :: 0 <= u < |s.workers| && s'.workers[u].mode.Exited? ==>
              s.workers[u].mode.Exited? || s.cancelled || s.queue == []
  {
    if !c.Cancel? && !s.workers[t].mode.Idle? {
      InsideCall(p, s, t, c);
    }
  }

  /** A worker leaves only when the channel is empty or the run is cancelled, so the next level
      finds an empty channel. */
  lemma {:induction false} ExitedEmptiesQueue(p: Program, levels: seq<seq<Name>>, trace: seq<State>, k: nat)
    requires Execution(p, levels, trace) && k < |trace|
    ensures var s := trace[k];
            (s.workers == [] || exists w <- s.workers :: w.mode.Exited?) ==> s.cancelled || s.queue == []
  {
    hide Step;
    if k > 0 {
      ExitedEmptiesQueue(p, levels, trace, k - 1);
      var t: nat, c: Choice :| Step(p, trace[k - 1], t, c) == Some(trace[k]);
      if c.Level? {
        StartedLevel(p, trace[k - 1], trace[k], t, c);
      } else {
        ChannelStep(p, trace[k - 1], trace[k], t, c);
        StillEmpty(trace[k - 1], trace[k]);
      }
    }
  }

  lemma StillEmpty(s: State, s': State)
    requires |s'.workers| == |s.workers| && (s.cancelled ==> s'.cancelled)
    requires s'.queue == s.queue || (s.queue != [] && s'.queue == s.queue[1..])
    requires forall u :: 0 <= u < |s.workers| && s'.workers[u].mode.Exited? ==>
               s.workers[u].mode.Exited? || s.cancelled || s.queue == []
    requires (s.workers == [] || exists w <- s.workers :: w.mode.Exited?) ==> s.cancelled || s.queue == []
    ensures (s'.workers == [] || exists w <- s'.workers :: w.mode.Exited?) ==> s'.cancelled || s'.queue == []
  {
    if w :| w in s'.workers && w.mode.Exited? {
      var u :| 0 <= u < |s'.workers| && s'.workers[u] == w;
      if s.workers[u].mode.Exited? { assert s.workers[u] in s.workers; }
    }
  }

  lemma StartedLevel(p: Program, s: State, s': State, t: nat, c: Choice)
    requires c.Level? && Step(p, s, t, c) == Some(s')
    ensures !s.cancelled && !s'.cancelled && s.levels != [] && AllExited(s) && Admits(p, s.levels[0], c.names)
    ensures s'.queue == c.names && s'.levels == s.levels[1..] && s'.admitted == s.admitted + c.names
    ensures s'.roots == s.roots && (s'.workers == [] <==> c.names == [])
    ensures forall w <- s'.workers :: w == Worker([], Idle)
  {
  }

  /** Over the whole run: the level tools begun so far, followed by those still in the channel, are
      the known tools among those admitted, in order. None is admitted oftener than the levels
      list it, and none whose commit was reconciled at startup. */
  lemma {:induction false} LevelToolsBegunInOrder(p: Program, levels: seq<seq<Name>>, trace: seq<State>, k: nat)
    requires Execution(p, levels, trace) && k < |trace|
    ensures var s := trace[k];
            && s.roots + Known(p, s.queue) == Known(p, s.admitted)
            && multiset(s.admitted) + multiset(Flat(s.levels)) <= multiset(Flat(levels))
            && forall n <- s.admitted :: n !in p.recovered
  {
    hide Step, Flat;
    if k > 0 {
      var s, s' := trace[k - 1], trace[k];
      LevelToolsBegunInOrder(p, levels, trace, k - 1);
      var t: nat, c: Choice :| Step(p, s, t, c) == Some(s');
      if c.Level? {
        ExitedEmptiesQueue(p, levels, trace, k - 1);
        StartedLevel(p, s, s', t, c);
        NextLevelAdmits(p, s, c.names);
      } else {
        ChannelStep(p, s, s', t, c);
      }
    } else {
      assert [] + Flat(levels) == Flat(levels);
    }
  }

  lemma NextLevelAdmits(p: Program, s: State, names: seq<Name>)
    requires AllExited(s) && s.levels != [] && Admits(p, s.levels[0], names)
    requires (s.workers == [] || exists w <- s.workers :: w.mode.Exited?) ==> s.queue == []
    requires s.roots + Known(p, s.queue) == Known(p, s.admitted)
    ensures s.roots + Known(p, names) == Known(p, s.admitted + names)
    ensures multiset(s.admitted + names) + multiset(Flat(s.levels[1..]))
            <= multiset(s.admitted) + multiset(Flat(s.levels))
  {
    if s.workers != [] { assert s.workers[0] in s.workers; }
    KnownConcat(p, s.admitted, names);
    assert s.roots + [] == s.roots;
    assert multiset(s.admitted + names) == multiset(s.admitted) + multiset(names);
    assert multiset(Flat(s.levels)) == multiset(s.levels[0]) + multiset(Flat(s.levels[1..]));
  }

  /** Once the run is cancelled no tool of a level is begun any more and no level is started. */
  lemma {:induction false} CancelledBeginsNothing(p: Program, levels: seq<seq<Name>>, trace: seq<State>, j: nat, k: nat)
    requires Execution(p, levels, trace) && j <= k < |trace| && trace[j].cancelled
    ensures trace[k].cancelled && trace[k].roots == trace[j].roots && trace[k].admitted == trace[j].admitted
    decreases k - j
  {
    hide Step;
    if j < k {
      CancelledBeginsNothing(p, levels, trace, j, k - 1);
      var t: nat, c: Choice :| Step(p, trace[k - 1], t, c) == Some(trace[k]);
      CancelledStep(p, trace[k - 1], trace[k], t, c);
    }
  }

  lemma CancelledStep(p: Program, s: State, s': State, t: nat, c: Choice)
    requires s.cancelled && Step(p, s, t, c) == Some(s')
    ensures s'.cancelled && s'.roots == s.roots && s'.admitted == s.admitted
  {
    if !c.Level? && !c.Cancel? && !s.workers[t].mode.Idle? { InsideCall(p, s, t, c); }
  }

  /** So with levels that list no tool twice, none is begun twice as a tool of a level. */
  lemma NoLevelToolTwice(p: Program, levels: seq<seq<Name>>, trace: seq<State>, k: nat)
    requires Execution(p, levels, trace) && k < |trace| && Distinct(Flat(levels))
    ensures Distinct(trace[k].roots) && forall n <- trace[k].roots :: n in Flat(levels) && n in p.tools
  {
    hide *;
    var s := trace[k];
    LevelToolsBegunInOrder(p, levels, trace, k);
    KnownCounts(p, s.admitted);
    PartOfDistinct(s.roots, Known(p, s.queue), Known(p, s.admitted), Flat(levels));
    assert forall n <- s.roots :: n in s.roots + Known(p, s.queue);
  }

  lemma PartOfDistinct(a: seq<Name>, b: seq<Name>, whole: seq<Name>, all: seq<Name>)
    requires a + b == whole && multiset(whole) <= multiset(all) && Distinct(all)
    ensures Distinct(a) && forall n <- a :: n in all
  {
    OnceEach(all);
    assert multiset(whole) == multiset(a) + multiset(b);
    assert forall x :: multiset(a)[x] <= multiset(whole)[x] <= multiset(all)[x];
    forall i, j | 0 <= i < j < |a| && a[i] == a[j] ensures multiset(a)[a[i]] >= 2 { CountsTwice(a, i, j); }
    forall n | n in a ensures n in all { assert n in multiset(a) && n in multiset(all); }
  }

  lemma {:induction false} OnceEach(xs: seq<Name>)
    requires Distinct(xs)
    ensures forall x :: multiset(xs)[x] <= 1
  {
    if xs != [] {
      assert xs == [xs[0]] + xs[1..];
      OnceEach(xs[1..]);
      assert xs[0] !in xs[1..];
    }
  }

  lemma CountsTwice(xs: seq<Name>, i: nat, j: nat)
    requires i < j < |xs| && xs[i] == xs[j]
    ensures multiset(xs)[xs[i]] >= 2
  {
    assert xs == xs[..j] + xs[j..];
    assert xs[..j][i] in xs[..j] && xs[j..][0] in xs[j..];
  }

  lemma {:induction false} KnownCounts(p: Program, names: seq<Name>)
    ensures multiset(Known(p, names)) <= multiset(names)
    ensures forall n <- Known(p, names) :: n in p.tools
  {
    if names != [] {
      assert names == [names[0]] + names[1..];
      KnownCounts(p, names[1..]);
    }
  }
}
