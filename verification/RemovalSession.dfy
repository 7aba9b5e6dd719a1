/**
 The removal session as it runs: it deletes from the state and the records while it recurses.
 */
module RemovalSession {
  import opened Basics
  import opened Removal
  import opened RemovalSafety
  import opened RemovalLiveness

  class RemoveSession {
    var tools: map<Name, ToolState>
    var owned: seq<Record>
    var removed: set<Name>
    ghost var log: seq<Event>
    const requested: set<Name>
    const world: World

    constructor (world: World, tools: map<Name, ToolState>, owned: seq<Record>, requested: set<Name>)
      ensures Snapshot() == Session(tools, owned, requested, {}, [])
      ensures this.world == world
    {
      this.world, this.tools, this.owned, this.requested := world, tools, owned, requested;
      removed, log := {}, [];
    }

    ghost function Snapshot(): Session
      reads this
    {
      Session(tools, owned, requested, removed, log)
    }

    method FindOwnedResource(resource: Resource) returns (found: bool, record: Record)
      ensures found <==> Find(owned, resource) != []
      ensures found ==> Find(owned, resource) == [record]
    {
      var i := 0;
      while i < |owned|
        invariant 0 <= i <= |owned|
        invariant Find(owned, resource) == Find(owned[i..], resource)
      {
        if owned[i].resource == resource {
          return true, owned[i];
        }
        assert owned[i..][1..] == owned[i + 1..];
        i := i + 1;
      }
      return false, Record(resource, External, {});
    }

    /** Drops the tool's claims and reports which depengine-owned records lost their last one. */
    method ReleaseDependentResources(tool: Name) returns (releasable: seq<Resource>)
      modifies this`owned
      ensures owned == Released(old(owned), tool)
      ensures releasable == Releasable(old(owned), tool)
    {
      var updated := [];
      releasable := [];
      var i := 0;
      while i < |owned|
        invariant 0 <= i <= |owned| == |old(owned)|
        invariant owned == old(owned)
        invariant |updated| == i
        invariant forall k :: 0 <= k < i ==> updated[k] == owned[k].(dependents := owned[k].dependents - {tool})
        invariant releasable + Releasable(owned[i..], tool) == Releasable(owned, tool)
      {
        var r := owned[i];
        var left := r.dependents - {tool};
        updated := updated + [r.(dependents := left)];
        assert owned[i..][1..] == owned[i + 1..];
        assert r.dependents == {tool} <==> tool in r.dependents && left == {};
        if tool in r.dependents && left == {} && r.ownership.Depengine? {
          releasable := releasable + [r.resource];
        }
        i := i + 1;
      }
      owned := updated;
    }

    /** Drops the records of the given resources. */
    method Finalized(dropped: set<Resource>)
      modifies this`owned
      ensures owned == Without(old(owned), dropped)
    {
      var kept := [];
      var i := 0;
      while i < |owned|
        invariant 0 <= i <= |owned|
        invariant owned == old(owned)
        invariant kept + Without(owned[i..], dropped) == Without(owned, dropped)
      {
        assert owned[i..][1..] == owned[i + 1..];
        if owned[i].resource !in dropped {
          kept := kept + [owned[i]];
        }
        i := i + 1;
      }
      owned := kept;
    }

    method FinalizeRemovedPrerequisite(tool: Name)
      modifies this`owned
      ensures owned == Finalize(old(owned), tool)
    {
      var found, record := FindOwnedResource(Prerequisite(tool));
      if !found || record.ownership != Depengine || record.dependents != {} {
        return;
      }
      Finalized({Prerequisite(tool)});
    }

    method RemoveTrackedTool(tool: Name, automatic: bool) returns (ok: bool)
      modifies this
      ensures (Snapshot(), ok) == RemoveTracked(world, old(Snapshot()), tool, automatic)
      decreases |tools|, 0
    {
      if tool !in tools {
        return tool in removed;
      }
      if automatic && tools[tool].rootRequested {
        return true;
      }
      if tool !in world.adapters {
        return false;
      }
      match world.Observe(tool) {
        case Satisfied | Drifted =>
          if tool !in world.removable || tool in world.removerFails {
            return false;
          }
        case Absent =>
        case VerifyError | Unknown | Broken => return false;
      }
      removed := removed + {tool};
      ghost var before := tools;
      log := log + [Event(tool, automatic, owned)];
      if tool in world.invalid {
        tools := tools - {tool};
        return false;
      }
      var releasable := ReleaseDependentResources(tool);
      var sources := Sources(releasable);
      var cleaned := sources == {} || tool !in world.cleanupFails;
      if cleaned {
        Finalized(sources);
      }
      tools := tools - {tool};
      FinalizeRemovedPrerequisite(tool);
      assert tools.Keys < before.Keys;
      KeysAreFewer(tools, before);
      ok := CleanupReleasedPrerequisites(releasable);
      ok := cleaned && ok;
    }

    method CleanupReleasedPrerequisites(releasable: seq<Resource>) returns (ok: bool)
      modifies this
      ensures (Snapshot(), ok) == Collect(world, old(Snapshot()), releasable)
      decreases |tools|, 2
    {
      ok := true;
      ghost var entry := Snapshot();
      var i := 0;
      while i < |releasable|
        invariant 0 <= i <= |releasable|
        invariant tools.Keys <= entry.tools.Keys
        invariant Collect(world, entry, releasable)
                  == (Collect(world, Snapshot(), releasable[i..]).0,
                      ok && Collect(world, Snapshot(), releasable[i..]).1)
      {
        KeysAreFewer(tools, entry.tools);
        assert releasable[i..][1..] == releasable[i + 1..];
        var collected := CleanupOne(releasable[i]);
        ok := collected && ok;
        i := i + 1;
      }
    }

    method CleanupOne(resource: Resource) returns (ok: bool)
      modifies this
      ensures (Snapshot(), ok) == CollectOne(world, old(Snapshot()), resource)
      decreases |tools|, 1
    {
      if resource.Malformed? {
        return false;
      }
      if !resource.Prerequisite? {
        return true;
      }
      var helper := resource.tool;
      var stillTracked, record := FindOwnedResource(resource);
      if !stillTracked {
        return true;
      }
      if record.ownership != Depengine || record.dependents != {} {
        return false;
      }
      if helper in removed {
        Finalized({resource});
        return true;
      }
      if helper in requested {
        return true;
      }
      if helper !in tools {
        return false;
      }
      if tools[helper].rootRequested {
        return true;
      }
      ok := RemoveTrackedTool(helper, true);
    }

    method RemoveSingleTool(tool: Name) returns (ok: bool)
      modifies this
      ensures (Snapshot(), ok) == RemoveSingle(world, old(Snapshot()), tool)
      ensures old(Distinct(owned)) ==> Lawful(world, old(Snapshot()), Snapshot(), {tool})
      ensures old(Sound(Snapshot())) && old(tool in tools) ==>
        (ok <==> tool !in world.invalid && old(Unblocked(Snapshot(), tool)) && world.Gone(tool)
                 && AllPaid(world, old(Snapshot()), Snapshot()))
      ensures old(Sound(Snapshot())) && ok ==> LeavesNothing(old(Snapshot()), Snapshot())
    {
      hide Lawful, Distinct, AllPaid, LeavesNothing, Sound, Unblocked;
      if Distinct(owned) { SingleIsLawful(world, Snapshot(), tool); }
      if Sound(Snapshot()) {
        SingleAnswers(world, Snapshot(), tool);
        if RemoveSingle(world, Snapshot(), tool).1 { NothingLeftBehind(world, Snapshot(), tool); }
      }
      if tool !in tools {
        return tool in removed;
      }
      if tool in world.invalid {
        return false;
      }
      var found, record := FindOwnedResource(Prerequisite(tool));
      if found && record.dependents - requested != {} {
        return false;
      }
      ok := RemoveTrackedTool(tool, false);
    }

    /** The loop of `remove --all` over a map that shrinks under it. Some order covers every tool, and the
        run is the run of that order. Where every dependent and every helper is tracked and removers
        and cleanups succeed, it succeeds whatever the order, empties the state and leaves no helper
        record that depengine owns. */
    method RemoveAllTools() returns (ok: bool, ghost order: seq<Name>)
      modifies this
      ensures forall tool :: tool in old(tools) ==> tool in order
      ensures (Snapshot(), ok) == RemoveAll(world, old(Snapshot()), order)
      ensures old(Distinct(owned)) ==> Lawful(world, old(Snapshot()), Snapshot(), Elements(order))
      ensures old(Snapshot() == Start(tools, owned) && Removable(world, tools, owned)) ==>
        && ok && tools == map[] && owned == After(old(owned), old(tools).Keys)
        && forall r :: r in owned ==> !(r.ownership.Depengine? && r.resource.Prerequisite?)
    {
      hide RemoveSingle, After, Removable, Lawful, Distinct;
      ok, order := true, [];
      ghost var entry := Snapshot();
      var pending := tools.Keys;
      RunAppends(world, entry, [], []);
      while pending != {}
        invariant forall tool :: tool in entry.tools ==> tool in order || tool in pending
        invariant (Snapshot(), ok) == RemoveAll(world, entry, order)
      {
        var tool :| tool in pending;
        pending := pending - {tool};
        RunAppends(world, entry, order, [tool]);
        if tool in tools {
          var removedOne := RemoveSingleTool(tool);
          ok := ok && removedOne;
        }
        order := order + [tool];
      }
      if Distinct(entry.owned) { RemoveAllIsLawful(world, entry, order); }
      if entry == Start(entry.tools, entry.owned) && Removable(world, entry.tools, entry.owned) {
        RemoveAllIsConfluent(world, entry.tools, entry.owned, order);
      }
    }

    method RemoveArguments(arguments: seq<Name>) returns (ok: bool)
      modifies this
      ensures (Snapshot(), ok) == RemoveEach(world, old(Snapshot()), arguments)
      ensures old(Distinct(owned)) ==> Lawful(world, old(Snapshot()), Snapshot(), Elements(arguments))
      ensures old(Sound(Snapshot())) && ok ==> LeavesNothing(old(Snapshot()), Snapshot())
    {
      hide RemoveSingle, Lawful, Distinct, LeavesNothing, Sound, AllPaid, Unblocked;
      ok := true;
      ghost var entry := Snapshot();
      var i := 0;
      while i < |arguments|
        invariant 0 <= i <= |arguments|
        invariant RemoveEach(world, entry, arguments)
                  == (RemoveEach(world, Snapshot(), arguments[i..]).0,
                      ok && RemoveEach(world, Snapshot(), arguments[i..]).1)
      {
        assert arguments[i..][1..] == arguments[i + 1..];
        var removedOne := RemoveSingleTool(arguments[i]);
        ok := ok && removedOne;
        i := i + 1;
      }
      if Distinct(entry.owned) { RemoveEachIsLawful(world, entry, arguments); }
      if Sound(entry) && ok { RunLeavesNothing(world, entry, arguments); }
    }
  }
}
