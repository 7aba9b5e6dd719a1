/**
 Reference-counted removal. Tools leave the state together with their claims on shared resources;
 a helper that depengine installed for a method goes when its last dependent goes.
 */
module Removal {

  type Name = string

  datatype Ownership = Depengine | External

  /** `Malformed` is a prerequisite record whose key does not name a tool. */
  datatype Resource = Source(key: string) | Prerequisite(tool: Name) | Malformed(key: string) | Other(key: string)

  datatype Record = Record(resource: Resource, ownership: Ownership, dependents: set<Name>) {
    predicate Unreferenced() { ownership.Depengine? && dependents == {} }
  }

  datatype ToolState = ToolState(rootRequested: bool)

  datatype Target = VerifyError | Satisfied | Absent | Drifted | Unknown | Broken

  /** The fixed answers: which tools have an adapter and one that can remove, what observing the
      target says, whose remover or source cleanup fails, and which names no record may hold. */
  datatype World = World(
    adapters: set<Name>, removable: set<Name>, targets: map<Name, Target>,
    removerFails: set<Name>, cleanupFails: set<Name>, invalid: set<Name>)
  {
    function Observe(tool: Name): Target {
      if tool in targets then targets[tool] else VerifyError
    }

    /** The target is gone: observed absent, or taken away by its remover. */
    predicate Gone(tool: Name) {
      && tool in adapters
      && (Observe(tool).Absent?
          || (Observe(tool) in {Satisfied, Drifted} && tool in removable && tool !in removerFails))
    }
  }

  /** A tool leaving the state: by whose will, and the ownership records at that moment. */
  datatype Event = Event(tool: Name, automatic: bool, owned: seq<Record>)

  datatype Session = Session(
    tools: map<Name, ToolState>, owned: seq<Record>, requested: set<Name>, removed: set<Name>, log: seq<Event>)

  // ----- ownership records -----

  function Find(owned: seq<Record>, resource: Resource): seq<Record> {
    if owned == [] then []
    else if owned[0].resource == resource then [owned[0]]
    else Find(owned[1..], resource)
  }

  /** Drops the claims of one tool. */
  function Released(owned: seq<Record>, tool: Name): seq<Record> {
    seq(|owned|, i requires 0 <= i < |owned| => owned[i].(dependents := owned[i].dependents - {tool}))
  }

  /** The depengine-owned resources whose last claim was that of `tool`, in record order. */
  function Releasable(owned: seq<Record>, tool: Name): seq<Resource> {
    if owned == [] then []
    else
      var r := owned[0];
      (if tool in r.dependents && r.ownership.Depengine? && r.dependents == {tool} then [r.resource] else [])
      + Releasable(owned[1..], tool)
  }

  function Without(owned: seq<Record>, dropped: set<Resource>): seq<Record> {
    if owned == [] then []
    else if owned[0].resource in dropped then Without(owned[1..], dropped)
    else [owned[0]] + Without(owned[1..], dropped)
  }

  function Sources(resources: seq<Resource>): set<Resource> {
    set r | r in resources && r.Source?
  }

  // ----- removing one tool -----

  /** The record of a helper removed explicitly goes when nobody claims it. */
  function Finalize(owned: seq<Record>, tool: Name): seq<Record> {
    var found := Find(owned, Prerequisite(tool));
    if found != [] && found[0].Unreferenced() then Without(owned, {Prerequisite(tool)}) else owned
  }

  function RemoveTracked(w: World, s: Session, tool: Name, automatic: bool): (result: (Session, bool))
    ensures result.0.tools.Keys <= s.tools.Keys
    ensures result.0.requested == s.requested
    decreases |s.tools|, 0, 0
  {
    if tool !in s.tools then (s, tool in s.removed)
    else if automatic && s.tools[tool].rootRequested then (s, true)
    else if !w.Gone(tool) then (s, false)
    else
      var left := Depart(w, s, tool, automatic);
      assert |left.tools.Keys| < |s.tools.Keys|;
      if tool in w.invalid then (left, false)
      else
        var (after, ok) := Collect(w, left, Releasable(s.owned, tool));
        (after, SourcesCleaned(w, s.owned, tool) && ok)
  }

  predicate SourcesCleaned(w: World, owned: seq<Record>, tool: Name) {
    Sources(Releasable(owned, tool)) == {} || tool !in w.cleanupFails
  }

  /** The tool leaves the state with its claims and the sources it held last. A name that no record can
      hold leaves the records alone. */
  function Depart(w: World, s: Session, tool: Name, automatic: bool): Session {
    var released := Released(s.owned, tool);
    var owned :=
      if SourcesCleaned(w, s.owned, tool) then Without(released, Sources(Releasable(s.owned, tool))) else released;
    s.(tools := s.tools - {tool}, removed := s.removed + {tool},
       log := s.log + [Event(tool, automatic, s.owned)],
       owned := if tool in w.invalid then s.owned else Finalize(owned, tool))
  }

  /** Collects the helpers among the released resources. */
  function Collect(w: World, s: Session, releasable: seq<Resource>): (result: (Session, bool))
    ensures result.0.tools.Keys <= s.tools.Keys
    ensures result.0.requested == s.requested
    decreases |s.tools|, 2, |releasable|
  {
    if releasable == [] then (s, true)
    else
      var (s1, ok1) := CollectOne(w, s, releasable[0]);
      KeysAreFewer(s1.tools, s.tools);
      var (s2, ok2) := Collect(w, s1, releasable[1..]);
      (s2, ok1 && ok2)
  }

  lemma KeysAreFewer(m: map<Name, ToolState>, n: map<Name, ToolState>)
    requires m.Keys <= n.Keys
    ensures |m| <= |n|
    ensures m.Keys < n.Keys ==> |m| < |n|
  {
    assert |m.Keys| == |m| && |n.Keys| == |n|;
    CardinalityOfSubset(m.Keys, n.Keys);
  }

  lemma CardinalityOfSubset(a: set<Name>, b: set<Name>)
    requires a <= b
    ensures |a| <= |b| && (a < b ==> |a| < |b|)
  {
    assert b == a + (b - a);
    assert |b| == |a| + |b - a|;
  }

  function CollectOne(w: World, s: Session, resource: Resource): (result: (Session, bool))
    ensures result.0.tools.Keys <= s.tools.Keys
    ensures result.0.requested == s.requested
    decreases |s.tools|, 1, 0
  {
    if resource.Malformed? then (s, false)
    else if !resource.Prerequisite? then (s, true)
    else
      var helper, found := resource.tool, Find(s.owned, resource);
      if found == [] then (s, true)
      else if !found[0].Unreferenced() then (s, false)
      else if helper in s.removed then (s.(owned := Without(s.owned, {resource})), true)
      else if helper in s.requested then (s, true)
      else if helper !in s.tools then (s, false)
      else if s.tools[helper].rootRequested then (s, true)
      else RemoveTracked(w, s, helper, true)
  }

  /** One explicit removal. */
  function RemoveSingle(w: World, s: Session, tool: Name): (Session, bool) {
    if tool !in s.tools then (s, tool in s.removed)
    else if tool in w.invalid then (s, false)
    else
      var found := Find(s.owned, Prerequisite(tool));
      if found != [] && found[0].dependents - s.requested != {} then (s, false)
      else RemoveTracked(w, s, tool, false)
  }

  /** `remove --all`, visiting the tools in the given order. A tool that left the state before its
      turn is not produced by the iteration over the state. */
  function RemoveAll(w: World, s: Session, order: seq<Name>): (Session, bool)
    decreases |order|
  {
    if order == [] then (s, true)
    else if order[0] !in s.tools then RemoveAll(w, s, order[1..])
    else
      var (s1, ok1) := RemoveSingle(w, s, order[0]);
      var (s2, ok2) := RemoveAll(w, s1, order[1..]);
      (s2, ok1 && ok2)
  }

  /** `remove <tool>...`: every argument is visited, tracked or not. */
  function RemoveEach(w: World, s: Session, arguments: seq<Name>): (Session, bool)
    decreases |arguments|
  {
    if arguments == [] then (s, true)
    else
      var (s1, ok1) := RemoveSingle(w, s, arguments[0]);
      var (s2, ok2) := RemoveEach(w, s1, arguments[1..]);
      (s2, ok1 && ok2)
  }

  // ----- one order after another -----

  lemma {:induction false} RunAppends(w: World, s: Session, first: seq<Name>, second: seq<Name>)
    ensures var (s1, ok1) := RemoveAll(w, s, first);
            var (s2, ok2) := RemoveAll(w, s1, second);
            RemoveAll(w, s, first + second) == (s2, ok1 && ok2)
    decreases |first|
  {
    if first == [] {
      assert first + second == second;
    } else {
      assert (first + second)[1..] == first[1..] + second;
      if first[0] !in s.tools {
        RunAppends(w, s, first[1..], second);
      } else {
        RunAppends(w, RemoveSingle(w, s, first[0]).0, first[1..], second);
      }
    }
  }
}
