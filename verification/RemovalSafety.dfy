/**
 What every removal keeps, whatever adapters answer, and why `remove --all` does not depend on the
 order in which a map happens to yield its keys.
 */
module RemovalSafety {
  import opened Basics
  import opened Removal

  ghost predicate Distinct(owned: seq<Record>) {
    forall i, j :: 0 <= i < j < |owned| ==> owned[i].resource != owned[j].resource
  }

  // ----- conservation of ownership records -----

  function Shed(r: Record, gone: set<Name>): Record {
    r.(dependents := r.dependents - gone)
  }

  predicate Expendable(r: Record, gone: set<Name>) {
    r.ownership.Depengine? && r.dependents <= gone
  }

  /** `after` is `before`, in order, each record without the claims of `gone`; only depengine-owned
      records that nobody outside `gone` claims may be missing. */
  ghost predicate Conserved(before: seq<Record>, after: seq<Record>, gone: set<Name>)
    decreases |before|
  {
    if before == [] then after == []
    else
      || (after != [] && after[0] == Shed(before[0], gone) && Conserved(before[1..], after[1..], gone))
      || (Expendable(before[0], gone) && Conserved(before[1..], after, gone))
  }

  lemma {:induction false} ConservedTransitive(a: seq<Record>, b: seq<Record>, c: seq<Record>, g1: set<Name>,
                                               g2: set<Name>)
    requires Conserved(a, b, g1) && Conserved(b, c, g2)
    ensures Conserved(a, c, g1 + g2)
    decreases |a|
  {
    if a == [] {
    } else if b != [] && b[0] == Shed(a[0], g1) && Conserved(a[1..], b[1..], g1) {
      assert Shed(b[0], g2) == Shed(a[0], g1 + g2) by {
        assert (a[0].dependents - g1) - g2 == a[0].dependents - (g1 + g2);
      }
      if c != [] && c[0] == Shed(b[0], g2) && Conserved(b[1..], c[1..], g2) {
        ConservedTransitive(a[1..], b[1..], c[1..], g1, g2);
      } else {
        ConservedTransitive(a[1..], b[1..], c, g1, g2);
      }
    } else {
      ConservedTransitive(a[1..], b, c, g1, g2);
    }
  }

  lemma {:induction false} ConservedResources(before: seq<Record>, after: seq<Record>, gone: set<Name>, r: Record)
    requires Conserved(before, after, gone) && r in after
    ensures exists b :: b in before && r == Shed(b, gone)
    decreases |before|
  {
    if after[0] == Shed(before[0], gone) && Conserved(before[1..], after[1..], gone) {
      if r == after[0] {
        assert before[0] in before;
      } else {
        ConservedResources(before[1..], after[1..], gone, r);
        var b :| b in before[1..] && r == Shed(b, gone);
        assert b in before;
      }
    } else {
      ConservedResources(before[1..], after, gone, r);
      var b :| b in before[1..] && r == Shed(b, gone);
      assert b in before;
    }
  }

  lemma {:induction false} ConservedDistinct(before: seq<Record>, after: seq<Record>, gone: set<Name>)
    requires Conserved(before, after, gone) && Distinct(before)
    ensures Distinct(after)
    decreases |before|
  {
    if before == [] {
    } else if after != [] && after[0] == Shed(before[0], gone) && Conserved(before[1..], after[1..], gone) {
      ConservedDistinct(before[1..], after[1..], gone);
      forall j | 0 < j < |after| ensures after[0].resource != after[j].resource {
        assert after[j] in after[1..];
        ConservedResources(before[1..], after[1..], gone, after[j]);
        var b :| b in before[1..] && after[j] == Shed(b, gone);
        var k :| 0 <= k < |before[1..]| && before[1..][k] == b;
        assert before[0].resource != before[k + 1].resource;
      }
      forall i, j | 0 <= i < j < |after| ensures after[i].resource != after[j].resource {
        assert i > 0 ==> after[i] == after[1..][i - 1] && after[j] == after[1..][j - 1];
      }
    } else {
      ConservedDistinct(before[1..], after, gone);
    }
  }

  /** A record with a claim that survives is still there, with exactly the surviving claims. */
  lemma {:induction false} ClaimedSurvives(before: seq<Record>, after: seq<Record>, gone: set<Name>, r: Record)
    requires Conserved(before, after, gone) && r in before && !Expendable(r, gone)
    ensures Shed(r, gone) in after
    decreases |before|
  {
    if r != before[0] {
      if after != [] && after[0] == Shed(before[0], gone) && Conserved(before[1..], after[1..], gone) {
        ClaimedSurvives(before[1..], after[1..], gone, r);
      } else {
        ClaimedSurvives(before[1..], after, gone, r);
      }
    }
  }

  lemma {:induction false} Unchanged(owned: seq<Record>)
    ensures Conserved(owned, owned, {})
    decreases |owned|
  {
    if owned != [] {
      assert Shed(owned[0], {}) == owned[0] by { assert owned[0].dependents - {} == owned[0].dependents; }
      Unchanged(owned[1..]);
    }
  }

  lemma {:induction false} ReleaseConserves(owned: seq<Record>, tool: Name)
    ensures Conserved(owned, Released(owned, tool), {tool})
    decreases |owned|
  {
    if owned != [] {
      assert Released(owned, tool)[1..] == Released(owned[1..], tool);
      ReleaseConserves(owned[1..], tool);
    }
  }

  lemma {:induction false} DropConserves(owned: seq<Record>, dropped: set<Resource>)
    requires forall r :: r in owned && r.resource in dropped ==> r.Unreferenced()
    ensures Conserved(owned, Without(owned, dropped), {})
    decreases |owned|
  {
    if owned != [] {
      assert forall r :: r in owned[1..] ==> r in owned;
      DropConserves(owned[1..], dropped);
      assert owned[0] in owned;
      assert owned[0].resource !in dropped ==> Without(owned, dropped)[1..] == Without(owned[1..], dropped);
      assert Shed(owned[0], {}) == owned[0] by { assert owned[0].dependents - {} == owned[0].dependents; }
    }
  }

  lemma {:induction false} FindIs(owned: seq<Record>, r: Record)
    requires Distinct(owned) && r in owned
    ensures Find(owned, r.resource) == [r]
    decreases |owned|
  {
    if owned[0] != r {
      var k :| 0 <= k < |owned| && owned[k] == r;
      assert owned[0].resource != owned[k].resource;
      assert owned[1..][k - 1] == r;
      FindIs(owned[1..], r);
    }
  }

  lemma {:induction false} Found(owned: seq<Record>, resource: Resource)
    requires Find(owned, resource) != []
    ensures |Find(owned, resource)| == 1
    ensures Find(owned, resource)[0] in owned && Find(owned, resource)[0].resource == resource
    decreases |owned|
  {
    if owned[0].resource != resource {
      Found(owned[1..], resource);
    }
  }

  lemma {:induction false} FinalizeConserves(owned: seq<Record>, tool: Name)
    requires Distinct(owned)
    ensures Conserved(owned, Finalize(owned, tool), {})
  {
    Unchanged(owned);
    if Find(owned, Prerequisite(tool)) != [] && Find(owned, Prerequisite(tool))[0].Unreferenced() {
      forall r | r in owned && r.resource == Prerequisite(tool) ensures r.Unreferenced() { FindIs(owned, r); }
      DropConserves(owned, {Prerequisite(tool)});
    }
  }

  /** Being releasable is losing the last claim. */
  lemma {:induction false} ReleasableMeans(owned: seq<Record>, tool: Name, resource: Resource)
    ensures resource in Releasable(owned, tool)
            <==> exists r :: r in owned && r.resource == resource && r.ownership.Depengine? && r.dependents == {tool}
    decreases |owned|
  {
    if owned != [] {
      ReleasableMeans(owned[1..], tool, resource);
      var r := owned[0];
      var first := if tool in r.dependents && r.ownership.Depengine? && r.dependents == {tool} then [r.resource]
                   else [];
      assert Releasable(owned, tool) == first + Releasable(owned[1..], tool);
      forall q | q in owned && q.resource == resource && q.ownership.Depengine? && q.dependents == {tool}
        ensures resource in Releasable(owned, tool)
      {
        if q != r { assert q in owned[1..]; }
      }
      if resource in Releasable(owned, tool) {
        if resource in first {
          assert r in owned;
        } else {
          var q :| q in owned[1..] && q.resource == resource && q.ownership.Depengine? && q.dependents == {tool};
          assert q in owned;
        }
      }
    }
  }

  lemma {:induction false} SourcesConserve(owned: seq<Record>, tool: Name)
    requires Distinct(owned)
    ensures Conserved(Released(owned, tool), Without(Released(owned, tool), Sources(Releasable(owned, tool))), {})
  {
    var released := Released(owned, tool);
    forall r | r in released && r.resource in Sources(Releasable(owned, tool)) ensures r.Unreferenced() {
      ReleasableMeans(owned, tool, r.resource);
      var q :| q in owned && q.resource == r.resource && q.ownership.Depengine? && q.dependents == {tool};
      var i :| 0 <= i < |released| && released[i] == r;
      var j :| 0 <= j < |owned| && owned[j] == q;
      assert owned[i].resource == owned[j].resource;
      assert r == q.(dependents := q.dependents - {tool});
    }
    DropConserves(released, Sources(Releasable(owned, tool)));
  }

  // ----- justification of every departure -----

  function Names(events: seq<Event>): set<Name> {
    set e | e in events :: e.tool
  }

  /** The target is gone, and either the tool was named by the user, or it is a helper that depengine
      owns, nobody claims, nobody requested as a root and nobody scheduled for its own visit. */
  ghost predicate Justified(w: World, s: Session, named: set<Name>, e: Event) {
    && w.Gone(e.tool)
    && e.tool in s.tools
    && (!e.automatic ==> e.tool in named)
    && (e.automatic ==>
          && e.tool !in s.requested
          && !s.tools[e.tool].rootRequested
          && Find(e.owned, Prerequisite(e.tool)) != []
          && Find(e.owned, Prerequisite(e.tool))[0].Unreferenced())
  }

  function Departures(s: Session, t: Session): seq<Event> {
    if |s.log| <= |t.log| then t.log[|s.log|..] else []
  }

  /** From `s` to `t`, exactly the logged tools left the state, each once and each justified, and the
      ownership records shed exactly the claims of those whose names records can hold. */
  ghost predicate Lawful(w: World, s: Session, t: Session, named: set<Name>) {
    var events := Departures(s, t);
    && t == s.(tools := s.tools - Names(events), removed := s.removed + Names(events),
               log := s.log + events, owned := t.owned)
    && JustifiedOnce(w, s, named, events)
    && Conserved(s.owned, t.owned, Names(events) - w.invalid)
    && Distinct(t.owned)
  }

  lemma Stays(w: World, s: Session, named: set<Name>)
    requires Distinct(s.owned)
    ensures Lawful(w, s, s, named)
  {
    Unchanged(s.owned);
    assert Departures(s, s) == [];
    assert Names([]) - w.invalid == {};
    assert s.tools - Names([]) == s.tools;
  }

  lemma Drops(w: World, s: Session, owned: seq<Record>, named: set<Name>)
    requires Distinct(s.owned) && Conserved(s.owned, owned, {})
    ensures Lawful(w, s, s.(owned := owned), named)
  {
    var t := s.(owned := owned);
    assert Departures(s, t) == [];
    assert Names([]) - w.invalid == {};
    assert s.tools - Names([]) == s.tools;
    ConservedDistinct(s.owned, owned, {});
  }

  lemma LawfulTransitive(w: World, s: Session, t: Session, u: Session, n1: set<Name>, n2: set<Name>)
    requires Lawful(w, s, t, n1) && Lawful(w, t, u, n2)
    ensures Lawful(w, s, u, n1 + n2)
  {
    hide Conserved, Distinct, Justified, JustifiedOnce, Names;
    var e1, e2, e := Departures(s, t), Departures(t, u), Departures(s, u);
    NamesConcat(e1, e2);
    Regroup(s.log, e1, e2);
    assert e == e1 + e2;
    assert (s.tools - Names(e1)) - Names(e2) == s.tools - (Names(e1) + Names(e2));
    assert (s.removed + Names(e1)) + Names(e2) == s.removed + (Names(e1) + Names(e2));
    EventsJoin(w, s, t, e1, e2, n1, n2);
    ConservedTransitive(s.owned, t.owned, u.owned, Names(e1) - w.invalid, Names(e2) - w.invalid);
    assert (Names(e1) - w.invalid) + (Names(e2) - w.invalid) == Names(e) - w.invalid;
  }

  ghost predicate JustifiedOnce(w: World, s: Session, named: set<Name>, events: seq<Event>) {
    && (forall e :: e in events ==> Justified(w, s, named, e))
    && (forall i, j :: 0 <= i < j < |events| ==> events[i].tool != events[j].tool)
  }

  lemma EventsJoin(w: World, s: Session, t: Session, e1: seq<Event>, e2: seq<Event>, n1: set<Name>, n2: set<Name>)
    requires t.tools == s.tools - Names(e1) && t.requested == s.requested
    requires JustifiedOnce(w, s, n1, e1) && JustifiedOnce(w, t, n2, e2)
    ensures JustifiedOnce(w, s, n1 + n2, e1 + e2)
  {
    hide Find, World.Gone;
    var e := e1 + e2;
    forall x | x in e ensures Justified(w, s, n1 + n2, x) {
      if x !in e1 { assert x in e2 && Justified(w, t, n2, x); }
    }
    forall i, j | 0 <= i < j < |e| ensures e[i].tool != e[j].tool {
      if i < |e1| && j >= |e1| {
        assert e[i] == e1[i] && e[j] == e2[j - |e1|];
        assert e[i].tool in Names(e1);
        assert Justified(w, t, n2, e[j]);
      } else if i >= |e1| {
        assert e[i] == e2[i - |e1|] && e[j] == e2[j - |e1|];
      }
    }
  }

  lemma NamesConcat(a: seq<Event>, b: seq<Event>)
    ensures Names(a + b) == Names(a) + Names(b)
  {
    forall e | e in a + b ensures e.tool in Names(a) + Names(b) { assert e in a || e in b; }
    forall n | n in Names(a) + Names(b) ensures n in Names(a + b) {
      var e :| (e in a || e in b) && e.tool == n;
      assert e in a + b;
    }
  }

  /** The departure itself, before the helpers are collected. */
  lemma Departs(w: World, s: Session, tool: Name, automatic: bool, owned: seq<Record>, named: set<Name>)
    requires Justified(w, s, named, Event(tool, automatic, s.owned))
    requires Conserved(s.owned, owned, {tool} - w.invalid) && Distinct(s.owned)
    ensures Lawful(w, s, s.(tools := s.tools - {tool}, removed := s.removed + {tool},
                            log := s.log + [Event(tool, automatic, s.owned)], owned := owned),
                   named)
  {
    var e := Event(tool, automatic, s.owned);
    var t := s.(tools := s.tools - {tool}, removed := s.removed + {tool}, log := s.log + [e], owned := owned);
    assert Departures(s, t) == [e];
    assert e in [e];
    assert Names([e]) == {tool};
    ConservedDistinct(s.owned, owned, {tool} - w.invalid);
  }

  /** Every removal is lawful: a tool leaves only when its target is gone, and nothing is collected
      that somebody still claims, requested or scheduled. */
  lemma {:induction false} RemovalIsLawful(w: World, s: Session, tool: Name, automatic: bool)
    requires Distinct(s.owned)
    requires automatic ==>
      && tool !in s.requested
      && Find(s.owned, Prerequisite(tool)) != [] && Find(s.owned, Prerequisite(tool))[0].Unreferenced()
    ensures Lawful(w, s, RemoveTracked(w, s, tool, automatic).0, if automatic then {} else {tool})
    decreases |s.tools|, 0, 0
  {
    hide Conserved, Lawful, Depart, Find, Distinct;
    var named := if automatic then {} else {tool};
    if tool !in s.tools || (automatic && s.tools[tool].rootRequested) || !w.Gone(tool) {
      Stays(w, s, named);
    } else {
      var left := Depart(w, s, tool, automatic);
      DepartureIsLawful(w, s, tool, automatic);
      if tool !in w.invalid {
        LawfulIsDistinct(w, s, left, named);
        KeysAreFewer(left.tools, s.tools);
        CollectionIsLawful(w, left, Releasable(s.owned, tool));
        LawfulTransitive(w, s, left, Collect(w, left, Releasable(s.owned, tool)).0, named, {});
        assert named + {} == named;
      }
    }
  }

  lemma DepartureIsLawful(w: World, s: Session, tool: Name, automatic: bool)
    requires Distinct(s.owned) && tool in s.tools
    requires Justified(w, s, if automatic then {} else {tool}, Event(tool, automatic, s.owned))
    ensures Lawful(w, s, Depart(w, s, tool, automatic), if automatic then {} else {tool})
    ensures Depart(w, s, tool, automatic).tools.Keys < s.tools.Keys
  {
    hide Conserved, Lawful, Released, Releasable, Find, Without, Distinct, Names, Justified;
    var named := if automatic then {} else {tool};
    if tool in w.invalid {
      Unchanged(s.owned);
      assert {tool} - w.invalid == {};
      Departs(w, s, tool, automatic, s.owned, named);
    } else {
      ReleaseFinalizes(w, s, tool);
      assert {tool} - w.invalid == {tool};
      Departs(w, s, tool, automatic, Depart(w, s, tool, automatic).owned, named);
    }
  }

  lemma LawfulIsDistinct(w: World, s: Session, t: Session, named: set<Name>)
    requires Lawful(w, s, t, named)
    ensures Distinct(t.owned)
  {
  }

  lemma ReleaseFinalizes(w: World, s: Session, tool: Name)
    requires Distinct(s.owned)
    ensures var releasable, released := Releasable(s.owned, tool), Released(s.owned, tool);
            var owned := if SourcesCleaned(w, s.owned, tool) then Without(released, Sources(releasable)) else released;
            Conserved(s.owned, Finalize(owned, tool), {tool})
  {
    hide Conserved, Released, Releasable, Find, Without, Distinct, Finalize;
    var releasable, released := Releasable(s.owned, tool), Released(s.owned, tool);
    var owned := if SourcesCleaned(w, s.owned, tool) then Without(released, Sources(releasable)) else released;
    ReleaseConserves(s.owned, tool);
    ConservedDistinct(s.owned, released, {tool});
    Unchanged(released);
    SourcesConserve(s.owned, tool);
    ConservedTransitive(s.owned, released, owned, {tool}, {});
    assert {tool} + {} == {tool};
    ConservedDistinct(released, owned, {});
    FinalizeConserves(owned, tool);
    ConservedTransitive(s.owned, owned, Finalize(owned, tool), {tool}, {});
  }

  lemma {:induction false} CollectionIsLawful(w: World, s: Session, releasable: seq<Resource>)
    requires Distinct(s.owned)
    ensures Lawful(w, s, Collect(w, s, releasable).0, {})
    decreases |s.tools|, 2, |releasable|
  {
    hide Conserved, Lawful, Find, Without, Distinct;
    var none: set<Name> := {};
    if releasable == [] {
      Stays(w, s, {});
    } else {
      var s1 := CollectOne(w, s, releasable[0]).0;
      OneCollectionIsLawful(w, s, releasable[0]);
      LawfulIsDistinct(w, s, s1, {});
      KeysAreFewer(s1.tools, s.tools);
      CollectionIsLawful(w, s1, releasable[1..]);
      LawfulTransitive(w, s, s1, Collect(w, s1, releasable[1..]).0, none, none);
      assert none + none == none;
    }
  }

  lemma {:induction false} OneCollectionIsLawful(w: World, s: Session, resource: Resource)
    requires Distinct(s.owned)
    ensures Lawful(w, s, CollectOne(w, s, resource).0, {})
    decreases |s.tools|, 1, 0
  {
    hide Conserved, Lawful, Find, Without, Distinct;
    Stays(w, s, {});
    if resource.Prerequisite? && Find(s.owned, resource) != [] && Find(s.owned, resource)[0].Unreferenced() {
      if resource.tool in s.removed {
        UnreferencedGoes(s.owned, resource);
        Drops(w, s, Without(s.owned, {resource}), {});
      } else if resource.tool !in s.requested {
        RemovalIsLawful(w, s, resource.tool, true);
      }
    }
  }

  lemma UnreferencedGoes(owned: seq<Record>, resource: Resource)
    requires Distinct(owned) && Find(owned, resource) != [] && Find(owned, resource)[0].Unreferenced()
    ensures Conserved(owned, Without(owned, {resource}), {})
  {
    forall r | r in owned && r.resource in {resource} ensures r.Unreferenced() { FindIs(owned, r); }
    DropConserves(owned, {resource});
  }

  lemma SingleIsLawful(w: World, s: Session, tool: Name)
    requires Distinct(s.owned)
    ensures Lawful(w, s, RemoveSingle(w, s, tool).0, {tool})
  {
    hide Lawful;
    Stays(w, s, {tool});
    RemovalIsLawful(w, s, tool, false);
  }

  /** `remove --all` takes away exactly what its journal says, each departure justified. */
  lemma {:induction false} RemoveAllIsLawful(w: World, s: Session, order: seq<Name>)
    requires Distinct(s.owned)
    ensures Lawful(w, s, RemoveAll(w, s, order).0, Elements(order))
    decreases |order|
  {
    hide Lawful;
    if order == [] {
      Stays(w, s, Elements(order));
    } else {
      assert Elements(order) == {order[0]} + Elements(order[1..]);
      var s1 := s;
      if order[0] !in s.tools {
        Stays(w, s, {order[0]});
      } else {
        s1 := RemoveSingle(w, s, order[0]).0;
        SingleIsLawful(w, s, order[0]);
        LawfulIsDistinct(w, s, s1, {order[0]});
      }
      RemoveAllIsLawful(w, s1, order[1..]);
      LawfulTransitive(w, s, s1, RemoveAll(w, s1, order[1..]).0, {order[0]}, Elements(order[1..]));
    }
  }

  /** So does `remove <tool>...`. */
  lemma {:induction false} RemoveEachIsLawful(w: World, s: Session, arguments: seq<Name>)
    requires Distinct(s.owned)
    ensures Lawful(w, s, RemoveEach(w, s, arguments).0, Elements(arguments))
    decreases |arguments|
  {
    hide Lawful;
    if arguments == [] {
      Stays(w, s, Elements(arguments));
    } else {
      assert Elements(arguments) == {arguments[0]} + Elements(arguments[1..]);
      var s1 := RemoveSingle(w, s, arguments[0]).0;
      SingleIsLawful(w, s, arguments[0]);
      LawfulIsDistinct(w, s, s1, {arguments[0]});
      RemoveEachIsLawful(w, s1, arguments[1..]);
      LawfulTransitive(w, s, s1, RemoveEach(w, s1, arguments[1..]).0, {arguments[0]}, Elements(arguments[1..]));
    }
  }

  // ----- remove --all in any order -----

  function Prerequisites(rs: seq<Resource>, tools: set<Name>): set<Resource> {
    set r | r in rs && r.Prerequisite? && r.tool in tools
  }

  /** Collection touches nothing but records when every helper is removed already or has its own visit. */
  lemma {:induction false} CollectionDefers(w: World, s: Session, rs: seq<Resource>)
    requires forall r :: r in rs ==> !r.Malformed?
    requires forall r :: r in rs && r.Prerequisite? ==>
      && (Find(s.owned, r) == [] || Find(s.owned, r)[0].Unreferenced())
      && (r.tool in s.removed || r.tool in s.requested)
    ensures Collect(w, s, rs) == (s.(owned := Without(s.owned, Prerequisites(rs, s.removed))), true)
    decreases |rs|
  {
    if rs == [] {
      WithoutNothing(s.owned);
      assert Prerequisites(rs, s.removed) == {};
    } else {
      var r := rs[0];
      assert forall q :: q in rs[1..] ==> q in rs;
      var s1 := CollectOne(w, s, r).0;
      var dropped := if r.Prerequisite? && r.tool in s.removed then {r} else {};
      WithoutNothing(s.owned);
      assert r in rs;
      if Find(s.owned, r) == [] { WithoutAbsent(s.owned, r); }
      assert CollectOne(w, s, r) == (s.(owned := Without(s.owned, dropped)), true);
      forall q | q in rs[1..] && q.Prerequisite?
        ensures Find(s1.owned, q) == [] || Find(s1.owned, q)[0].Unreferenced()
      {
        FindWithout(s.owned, dropped, q);
      }
      CollectionDefers(w, s1, rs[1..]);
      WithoutTwice(s.owned, dropped, Prerequisites(rs[1..], s.removed));
      assert dropped + Prerequisites(rs[1..], s.removed) == Prerequisites(rs, s.removed);
    }
  }

  lemma {:induction false} WithoutNothing(owned: seq<Record>)
    ensures Without(owned, {}) == owned
    decreases |owned|
  {
    if owned != [] { WithoutNothing(owned[1..]); }
  }

  lemma {:induction false} WithoutAbsent(owned: seq<Record>, resource: Resource)
    requires Find(owned, resource) == []
    ensures Without(owned, {resource}) == owned
    decreases |owned|
  {
    if owned != [] { WithoutAbsent(owned[1..], resource); }
  }

  lemma {:induction false} WithoutTwice(owned: seq<Record>, first: set<Resource>, second: set<Resource>)
    ensures Without(Without(owned, first), second) == Without(owned, first + second)
    decreases |owned|
  {
    if owned != [] {
      WithoutTwice(owned[1..], first, second);
      if owned[0].resource !in first {
        assert Without(owned, first)[1..] == Without(owned[1..], first);
      }
    }
  }

  lemma {:induction false} FindWithout(owned: seq<Record>, dropped: set<Resource>, resource: Resource)
    ensures Find(Without(owned, dropped), resource) == if resource in dropped then [] else Find(owned, resource)
    decreases |owned|
  {
    if owned != [] {
      FindWithout(owned[1..], dropped, resource);
      if owned[0].resource !in dropped {
        assert Without(owned, dropped)[1..] == Without(owned[1..], dropped);
      }
    }
  }

  /** A depengine-owned record is settled once its last claim is gone; a helper's record also waits
      for the helper itself. */
  predicate Settled(r: Record, gone: set<Name>) {
    && r.ownership.Depengine?
    && r.dependents <= gone
    && match r.resource {
         case Source(_) => r.dependents != {}
         case Prerequisite(helper) => helper in gone
         case Malformed(_) | Other(_) => false
       }
  }

  /** The records after exactly `gone` left, however they left. */
  function After(owned: seq<Record>, gone: set<Name>): seq<Record> {
    if owned == [] then []
    else (if Settled(owned[0], gone) then [] else [Shed(owned[0], gone)]) + After(owned[1..], gone)
  }

  /** `remove --all` on a state where every dependent and every owned helper is tracked, and every
      remover and cleanup succeeds. */
  ghost predicate Removable(w: World, tools: map<Name, ToolState>, owned: seq<Record>) {
    && Distinct(owned)
    && (forall t :: t in tools ==> w.Gone(t) && t !in w.invalid && t !in w.cleanupFails)
    && (forall r :: r in owned ==> Tracked(r, tools.Keys))
  }

  predicate Tracked(r: Record, tools: set<Name>) {
    match r.resource
    case Prerequisite(helper) =>
      && (helper in tools || r.ownership.Depengine? ==> r.dependents <= tools)
      && (r.ownership.Depengine? ==> helper in tools)
    case Malformed(_) => !r.ownership.Depengine?
    case Source(_) | Other(_) => true
  }

  lemma {:induction false} AfterHolds(owned: seq<Record>, gone: set<Name>, r: Record)
    requires r in After(owned, gone)
    ensures exists b :: b in owned && r == Shed(b, gone) && !Settled(b, gone)
    decreases |owned|
  {
    if !Settled(owned[0], gone) && r == Shed(owned[0], gone) {
      assert owned[0] in owned;
    } else {
      AfterHolds(owned[1..], gone, r);
      var b :| b in owned[1..] && r == Shed(b, gone) && !Settled(b, gone);
      assert b in owned;
    }
  }

  lemma {:induction false} AfterKeeps(owned: seq<Record>, gone: set<Name>, b: Record)
    requires b in owned && !Settled(b, gone)
    ensures Shed(b, gone) in After(owned, gone)
    decreases |owned|
  {
    if owned[0] != b { AfterKeeps(owned[1..], gone, b); }
  }

  lemma {:induction false} AfterDistinct(owned: seq<Record>, gone: set<Name>)
    requires Distinct(owned)
    ensures Distinct(After(owned, gone))
    decreases |owned|
  {
    if owned != [] {
      AfterDistinct(owned[1..], gone);
      var rest := After(owned[1..], gone);
      forall r | r in rest ensures r.resource != owned[0].resource {
        AfterHolds(owned[1..], gone, r);
        var b :| b in owned[1..] && r == Shed(b, gone) && !Settled(b, gone);
        var k :| 0 <= k < |owned[1..]| && owned[1..][k] == b;
        assert owned[0].resource != owned[k + 1].resource;
      }
      forall i, j | 0 <= i < j < |After(owned, gone)|
        ensures After(owned, gone)[i].resource != After(owned, gone)[j].resource
      {
        if !Settled(owned[0], gone) {
          assert After(owned, gone)[j] == rest[j - 1];
          assert i > 0 ==> After(owned, gone)[i] == rest[i - 1];
        }
      }
    }
  }

  /** Dropping what one more departure settles turns the records after `gone` into those after one more. */
  lemma {:induction false} OneMoreGone(owned: seq<Record>, gone: set<Name>, tool: Name, dropped: set<Resource>)
    requires tool !in gone
    requires forall b :: b in owned && !Settled(b, gone) ==> (b.resource in dropped <==> Settled(b, gone + {tool}))
    ensures Without(Released(After(owned, gone), tool), dropped) == After(owned, gone + {tool})
    decreases |owned|
  {
    if owned != [] {
      var b := owned[0];
      assert b in owned;
      assert forall r :: r in owned[1..] ==> r in owned;
      OneMoreGone(owned[1..], gone, tool, dropped);
      if Settled(b, gone) {
        assert Settled(b, gone + {tool});
        assert After(owned, gone) == After(owned[1..], gone);
      } else {
        var released := Released(After(owned, gone), tool);
        assert After(owned, gone)[1..] == After(owned[1..], gone);
        assert released[1..] == Released(After(owned[1..], gone), tool);
        assert released[0] == Shed(b, gone + {tool}) by {
          assert (b.dependents - gone) - {tool} == b.dependents - (gone + {tool});
        }
      }
    }
  }

  /** Any visiting order, half way: exactly the tools in `gone` left. */
  function HalfWay(tools: map<Name, ToolState>, owned: seq<Record>, gone: set<Name>, log: seq<Event>): Session {
    Session(tools - gone, After(owned, gone), tools.Keys, gone, log)
  }

  lemma {:induction false} OneVisit(w: World, tools: map<Name, ToolState>, owned: seq<Record>, gone: set<Name>,
                                    log: seq<Event>, tool: Name)
    requires Removable(w, tools, owned)
    requires gone <= tools.Keys && tool in tools && tool !in gone
    ensures exists log' ::
      RemoveSingle(w, HalfWay(tools, owned, gone, log), tool) == (HalfWay(tools, owned, gone + {tool}, log'), true)
  {
    hide Releasable, Without, Settled, Find, Released;
    var s := HalfWay(tools, owned, gone, log);
    AfterDistinct(owned, gone);
    NoBlockers(tools, owned, gone, tool, w);
    var log' := log + [Event(tool, false, s.owned)];
    var rs := Releasable(s.owned, tool);
    var released := Released(s.owned, tool);
    var kept := Without(released, Sources(rs));
    var f := Finalize(kept, tool);
    var left := Session(s.tools - {tool}, f, s.requested, s.removed + {tool}, log');
    assert RemoveSingle(w, s, tool) == Collect(w, left, rs);
    ReleasedHelpers(w, tools, owned, gone, tool);
    CollectionDefers(w, left, rs);
    var final := if Find(kept, Prerequisite(tool)) != [] && Find(kept, Prerequisite(tool))[0].Unreferenced()
                 then {Prerequisite(tool)} else {};
    WithoutNothing(kept);
    WithoutTwice(released, Sources(rs), final);
    WithoutTwice(released, Sources(rs) + final, Prerequisites(rs, left.removed));
    var dropped := Sources(rs) + final + Prerequisites(rs, left.removed);
    DroppedIsSettled(w, tools, owned, gone, tool);
    OneMoreGone(owned, gone, tool, dropped);
    assert s.tools - {tool} == tools - (gone + {tool});
    assert RemoveSingle(w, s, tool) == (HalfWay(tools, owned, gone + {tool}, log'), true);
  }

  lemma NoBlockers(tools: map<Name, ToolState>, owned: seq<Record>, gone: set<Name>, tool: Name, w: World)
    requires Removable(w, tools, owned) && tool in tools
    ensures var found := Find(After(owned, gone), Prerequisite(tool)); found != [] ==> found[0].dependents <= tools.Keys
  {
    var found := Find(After(owned, gone), Prerequisite(tool));
    if found != [] {
      Found(After(owned, gone), Prerequisite(tool));
      AfterHolds(owned, gone, found[0]);
      var b :| b in owned && found[0] == Shed(b, gone) && !Settled(b, gone);
      assert Tracked(b, tools.Keys);
    }
  }

  /** The records a departure releases: the originals with no other claim outside `gone`. */
  lemma ReleasedAfter(owned: seq<Record>, gone: set<Name>, tool: Name, resource: Resource)
    ensures resource in Releasable(After(owned, gone), tool)
            <==> exists b :: b in owned && b.resource == resource && b.ownership.Depengine?
                             && !Settled(b, gone) && b.dependents - gone == {tool}
  {
    ReleasableMeans(After(owned, gone), tool, resource);
    if resource in Releasable(After(owned, gone), tool) {
      var r :| r in After(owned, gone) && r.resource == resource && r.ownership.Depengine? && r.dependents == {tool};
      AfterHolds(owned, gone, r);
      var b :| b in owned && r == Shed(b, gone) && !Settled(b, gone);
      assert b.dependents - gone == {tool};
    }
    forall b | b in owned && b.resource == resource && b.ownership.Depengine? && !Settled(b, gone)
           && b.dependents - gone == {tool}
      ensures resource in Releasable(After(owned, gone), tool)
    {
      AfterKeeps(owned, gone, b);
      var r := Shed(b, gone);
      assert r in After(owned, gone) && r.resource == resource && r.ownership.Depengine? && r.dependents == {tool};
    }
  }

  /** What `OneVisit` leaves for collection meets its terms. */
  lemma ReleasedHelpers(w: World, tools: map<Name, ToolState>, owned: seq<Record>, gone: set<Name>, tool: Name)
    requires Removable(w, tools, owned) && gone <= tools.Keys && tool in tools && tool !in gone
    ensures var rs := Releasable(After(owned, gone), tool);
            var kept := Without(Released(After(owned, gone), tool), Sources(rs));
            forall r :: r in rs ==>
              && !r.Malformed?
              && (r.Prerequisite? ==>
                    && r.tool in tools
                    && (Find(Finalize(kept, tool), r) == [] || Find(Finalize(kept, tool), r)[0].Unreferenced()))
  {
    var before := After(owned, gone);
    var rs, released := Releasable(before, tool), Released(before, tool);
    var kept := Without(released, Sources(rs));
    forall r | r in rs
      ensures !r.Malformed?
      ensures r.Prerequisite? ==>
        && r.tool in tools
        && (Find(Finalize(kept, tool), r) == [] || Find(Finalize(kept, tool), r)[0].Unreferenced())
    {
      ReleasedAfter(owned, gone, tool, r);
      var b :| b in owned && b.resource == r && b.ownership.Depengine? && !Settled(b, gone)
               && b.dependents - gone == {tool};
      assert Tracked(b, tools.Keys);
      if r.Prerequisite? {
        FindReleased(owned, gone, tool, b);
        FindWithout(released, Sources(rs), r);
        FindWithout(kept, {Prerequisite(tool)}, r);
      }
    }
  }

  lemma FindReleased(owned: seq<Record>, gone: set<Name>, tool: Name, b: Record)
    requires Distinct(owned) && b in owned && !Settled(b, gone)
    ensures Find(Released(After(owned, gone), tool), b.resource) == [Shed(b, gone + {tool})]
  {
    var before := After(owned, gone);
    var released := Released(before, tool);
    AfterDistinct(owned, gone);
    AfterKeeps(owned, gone, b);
    var i :| 0 <= i < |before| && before[i] == Shed(b, gone);
    assert (b.dependents - gone) - {tool} == b.dependents - (gone + {tool});
    assert released[i] == Shed(b, gone + {tool});
    FindIs(released, released[i]);
  }

  /** The three ways a record is dropped during one visit are the one way of being settled. */
  lemma DroppedIsSettled(w: World, tools: map<Name, ToolState>, owned: seq<Record>, gone: set<Name>, tool: Name)
    requires Removable(w, tools, owned) && gone <= tools.Keys && tool in tools && tool !in gone
    ensures var rs := Releasable(After(owned, gone), tool);
            var kept := Without(Released(After(owned, gone), tool), Sources(rs));
            var final := if Find(kept, Prerequisite(tool)) != [] && Find(kept, Prerequisite(tool))[0].Unreferenced()
                         then {Prerequisite(tool)} else {};
            var dropped := Sources(rs) + final + Prerequisites(rs, gone + {tool});
            forall b :: b in owned && !Settled(b, gone) ==> (b.resource in dropped <==> Settled(b, gone + {tool}))
  {
    hide Releasable, Released, Find, Without, Removable;
    var rs := Releasable(After(owned, gone), tool);
    var released := Released(After(owned, gone), tool);
    var kept := Without(released, Sources(rs));
    var final := if Find(kept, Prerequisite(tool)) != [] && Find(kept, Prerequisite(tool))[0].Unreferenced()
                 then {Prerequisite(tool)} else {};
    var dropped := Sources(rs) + final + Prerequisites(rs, gone + {tool});
    forall b | b in owned && !Settled(b, gone) ensures b.resource in dropped <==> Settled(b, gone + {tool}) {
      RemovableIsDistinct(w, tools, owned);
      OnlyOneRecord(owned, gone, tool, b);
      FindReleased(owned, gone, tool, b);
      FindWithout(released, Sources(rs), b.resource);
      assert b.dependents - gone == {tool} ==> b.dependents <= gone + {tool};
      assert b.dependents <= gone + {tool} && !(b.dependents <= gone) ==> b.dependents - gone == {tool};
      assert Shed(b, gone + {tool}).dependents == {} <==> b.dependents <= gone + {tool};
    }
  }

  lemma RemovableIsDistinct(w: World, tools: map<Name, ToolState>, owned: seq<Record>)
    requires Removable(w, tools, owned)
    ensures Distinct(owned)
  {
  }

  lemma OnlyOneRecord(owned: seq<Record>, gone: set<Name>, tool: Name, b: Record)
    requires Distinct(owned) && b in owned && !Settled(b, gone)
    ensures b.resource in Releasable(After(owned, gone), tool)
            <==> b.ownership.Depengine? && b.dependents - gone == {tool}
  {
    ReleasedAfter(owned, gone, tool, b.resource);
    forall q | q in owned && q.resource == b.resource ensures q == b {
      FindIs(owned, b);
      FindIs(owned, q);
    }
  }

  lemma {:induction false} AnyOrder(w: World, tools: map<Name, ToolState>, owned: seq<Record>, gone: set<Name>,
                                    log: seq<Event>, order: seq<Name>)
    requires Removable(w, tools, owned) && gone <= tools.Keys
    ensures var visited := gone + (set t | t in order && t in tools);
            exists log' ::
              RemoveAll(w, HalfWay(tools, owned, gone, log), order)
              == (HalfWay(tools, owned, visited, log'), true)
    decreases |order|
  {
    hide After, RemoveSingle, Removable;
    var visited := gone + (set t | t in order && t in tools);
    if order == [] {
      assert visited == gone;
      assert RemoveAll(w, HalfWay(tools, owned, gone, log), order) == (HalfWay(tools, owned, visited, log), true);
    } else {
      var tool := order[0];
      var rest := set t | t in order[1..] && t in tools;
      if tool !in tools || tool in gone {
        assert gone + rest == visited;
        AnyOrder(w, tools, owned, gone, log, order[1..]);
      } else {
        OneVisit(w, tools, owned, gone, log, tool);
        var log1 :| RemoveSingle(w, HalfWay(tools, owned, gone, log), tool)
                    == (HalfWay(tools, owned, gone + {tool}, log1), true);
        assert gone + {tool} + rest == visited;
        AnyOrder(w, tools, owned, gone + {tool}, log1, order[1..]);
        var log2 :| RemoveAll(w, HalfWay(tools, owned, gone + {tool}, log1), order[1..])
                    == (HalfWay(tools, owned, visited, log2), true);
        assert RemoveAll(w, HalfWay(tools, owned, gone, log), order) == (HalfWay(tools, owned, visited, log2), true);
      }
    }
  }

  /** A fresh `remove --all` session. */
  function Start(tools: map<Name, ToolState>, owned: seq<Record>): Session {
    Session(tools, owned, tools.Keys, {}, [])
  }

  /** `remove --all` is confluent: every order that visits every tool succeeds, empties the state, leaves
      no helper record that depengine owns, and leaves the same records. */
  lemma {:induction false} RemoveAllIsConfluent(w: World, tools: map<Name, ToolState>, owned: seq<Record>,
                                                order: seq<Name>)
    requires Removable(w, tools, owned)
    requires forall t :: t in tools ==> t in order
    ensures var (end, ok) := RemoveAll(w, Start(tools, owned), order);
            && ok
            && end.tools == map[]
            && end.owned == After(owned, tools.Keys)
            && (forall r :: r in end.owned ==> !(r.ownership.Depengine? && r.resource.Prerequisite?))
  {
    NothingGone(owned);
    assert tools - {} == tools;
    AnyOrder(w, tools, owned, {}, [], order);
    var visited := {} + (set t | t in order && t in tools);
    assert visited == tools.Keys;
    assert tools - visited == map[];
    forall r | r in After(owned, tools.Keys) ensures !(r.ownership.Depengine? && r.resource.Prerequisite?) {
      AfterHolds(owned, tools.Keys, r);
      var b :| b in owned && r == Shed(b, tools.Keys) && !Settled(b, tools.Keys);
      assert Tracked(b, tools.Keys);
    }
  }

  lemma {:induction false} NothingGone(owned: seq<Record>)
    ensures After(owned, {}) == owned
    decreases |owned|
  {
    if owned != [] {
      assert Shed(owned[0], {}) == owned[0] by { assert owned[0].dependents - {} == owned[0].dependents; }
      NothingGone(owned[1..]);
    }
  }

  // ----- why every dependent must be tracked -----

  /** A helper with a claim from outside the session stays, and its visit fails, in every order. */
  lemma {:induction false} UntrackedDependentBlocks(w: World, s: Session, order: seq<Name>, helper: Name, r: Record,
                                                    d: Name)
    requires Distinct(s.owned)
    requires helper in s.tools && helper in s.requested
    requires r in s.owned && r.resource == Prerequisite(helper) && d in r.dependents
    requires d !in s.requested && d !in s.tools
    ensures var (end, ok) := RemoveAll(w, s, order);
            helper in end.tools && (helper in order ==> !ok)
    decreases |order|
  {
    if order != [] {
      FindIs(s.owned, r);
      assert d in r.dependents - s.requested;
      if order[0] == helper || order[0] !in s.tools {
        UntrackedDependentBlocks(w, s, order[1..], helper, r, d);
      } else {
        var s1 := RemoveSingle(w, s, order[0]).0;
        BlockedSurvives(w, s, order[0], helper, r, d);
        var r1 :| r1 in s1.owned && r1.resource == r.resource && d in r1.dependents;
        UntrackedDependentBlocks(w, s1, order[1..], helper, r1, d);
      }
    }
  }

  lemma BlockedSurvives(w: World, s: Session, tool: Name, helper: Name, r: Record, d: Name)
    requires Distinct(s.owned) && tool != helper
    requires helper in s.tools && helper in s.requested
    requires r in s.owned && r.resource == Prerequisite(helper) && d in r.dependents
    requires d !in s.tools
    ensures var t := RemoveSingle(w, s, tool).0;
            && Distinct(t.owned) && helper in t.tools && t.requested == s.requested && d !in t.tools
            && exists r1 :: r1 in t.owned && r1.resource == r.resource && d in r1.dependents
  {
    var t := RemoveSingle(w, s, tool).0;
    SingleIsLawful(w, s, tool);
    var events := Departures(s, t);
    assert helper !in Names(events) by {
      assert forall e :: e in events ==> e.tool in s.tools && e.tool != helper;
    }
    assert d !in Names(events) by {
      assert forall e :: e in events ==> e.tool in s.tools && e.tool != d;
    }
    ClaimedSurvives(s.owned, t.owned, Names(events) - w.invalid, r);
    assert d in Shed(r, Names(events) - w.invalid).dependents;
  }
}
