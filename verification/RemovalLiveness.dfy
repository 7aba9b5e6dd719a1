/**
 What a removal owes: a helper that lost its last claim is collected with its record, however long the
 chain, and the answer says exactly whether all of that succeeded.
 */
module RemovalLiveness {
  import opened Basics
  import opened Removal
  import opened RemovalSafety

  // ----- the obligations -----

  /** No tool is both tracked and removed already, and no resource has two records. */
  ghost predicate Sound(s: Session) {
    Distinct(s.owned) && s.tools.Keys !! s.removed
  }

  predicate Dropped(owned: seq<Record>, r: Resource) {
    forall q <- owned :: q.resource != r
  }

  /** Somebody wants the tool for itself: it is scheduled for a visit of its own, or was once requested. */
  predicate Wanted(s: Session, tool: Name) {
    tool in s.requested || (tool in s.tools && s.tools[tool].rootRequested)
  }

  /** What is owed to a released resource of `s` was done by `t`: a helper is gone with its record, or
      stays because somebody wants it for itself. */
  predicate Collected(s: Session, t: Session, r: Resource) {
    && !r.Malformed?
    && (r.Prerequisite? ==>
         || (r.tool !in t.tools && Dropped(t.owned, r))
         || (Wanted(s, r.tool) && r.tool !in t.removed))
  }

  /** A departure did all it owed: its name can be recorded, the sources it held last were cleaned up, and
      every helper it held last was collected. */
  predicate Paid(w: World, s: Session, t: Session, e: Event) {
    && e.tool !in w.invalid
    && ((exists r <- Releasable(e.owned, e.tool) :: r.Source?) ==> e.tool !in w.cleanupFails)
    && forall r <- Releasable(e.owned, e.tool) :: Collected(s, t, r)
  }

  predicate AllPaid(w: World, s: Session, t: Session) {
    forall e <- Departures(s, t) :: Paid(w, s, t, e)
  }

  // ----- which records and tools a collection leaves alone -----

  /** A helper's record goes only with the helper; an unreferenced one that is not due stays, with its
      helper. */
  ghost predicate Within(s: Session, t: Session, due: set<Resource>) {
    && t.tools.Keys <= s.tools.Keys && s.removed <= t.removed
    && (forall b <- s.owned :: b.resource.Prerequisite? && Dropped(t.owned, b.resource) ==> b.resource.tool !in t.tools)
    && (forall b <- s.owned :: b.resource.Prerequisite? && b.Unreferenced() && b.resource !in due ==>
          b in t.owned && (b.resource.tool in s.tools ==> b.resource.tool in t.tools))
  }

  lemma WithinSame(s: Session, due: set<Resource>)
    ensures Within(s, s, due)
  {
  }

  lemma WithinOn(s: Session, s1: Session, t: Session, d1: set<Resource>, d2: set<Resource>, due: set<Resource>)
    requires Within(s, s1, d1) && Within(s1, t, d2) && d1 <= due
    requires forall b <- s.owned :: b.Unreferenced() && b.resource in d2 ==> b.resource in due
    ensures Within(s, t, due)
  {
    forall b <- s.owned | b.resource.Prerequisite? && Dropped(t.owned, b.resource)
      ensures b.resource.tool !in t.tools
    {
      if !Dropped(s1.owned, b.resource) {
        var q :| q in s1.owned && q.resource == b.resource;
      }
    }
  }

  lemma {:induction false} InWithout(owned: seq<Record>, dropped: set<Resource>, r: Record)
    ensures r in Without(owned, dropped) <==> r in owned && r.resource !in dropped
    decreases |owned|
  {
    if owned != [] {
      InWithout(owned[1..], dropped, r);
      assert r in owned <==> r == owned[0] || r in owned[1..];
      assert owned[0].resource !in dropped ==> Without(owned, dropped) == [owned[0]] + Without(owned[1..], dropped);
    }
  }

  lemma WithinDrop(s: Session, r: Resource)
    requires r.Prerequisite? && r.tool !in s.tools
    ensures Within(s, s.(owned := Without(s.owned, {r})), {r})
  {
    forall b <- s.owned ensures b in Without(s.owned, {r}) <==> b.resource != r { InWithout(s.owned, {r}, b); }
  }

  lemma WithinDepart(w: World, s: Session, tool: Name, automatic: bool)
    requires tool in s.tools
    ensures Within(s, Depart(w, s, tool, automatic), {Prerequisite(tool)})
  {
    hide Releasable, Find;
    var left := Depart(w, s, tool, automatic);
    var gone := Sources(Releasable(s.owned, tool)) + {Prerequisite(tool)};
    if tool !in w.invalid {
      forall b <- s.owned | b.resource !in gone ensures b.(dependents := b.dependents - {tool}) in left.owned {
        StaysReleased(s.owned, tool, b);
        var r := b.(dependents := b.dependents - {tool});
        InWithout(Released(s.owned, tool), Sources(Releasable(s.owned, tool)), r);
        var released, sources := Released(s.owned, tool), Sources(Releasable(s.owned, tool));
        var kept := if SourcesCleaned(w, s.owned, tool) then Without(released, sources) else released;
        InWithout(kept, {Prerequisite(tool)}, r);
      }
      forall b <- s.owned | b.Unreferenced() ensures b.(dependents := b.dependents - {tool}) == b {
        assert b.dependents - {tool} == b.dependents;
      }
    }
  }

  lemma StaysReleased(owned: seq<Record>, tool: Name, b: Record)
    requires b in owned
    ensures b.(dependents := b.dependents - {tool}) in Released(owned, tool)
  {
    var i :| 0 <= i < |owned| && owned[i] == b;
    assert Released(owned, tool)[i] == b.(dependents := b.dependents - {tool});
  }

  lemma SoundAfter(w: World, s: Session, t: Session, named: set<Name>)
    requires Sound(s) && Lawful(w, s, t, named)
    ensures Sound(t)
  {
  }

  /** Only helpers nobody wants are removed automatically. */
  ghost predicate MayGo(s: Session, tool: Name) {
    && tool in s.tools && !Wanted(s, tool)
    && Find(s.owned, Prerequisite(tool)) != [] && Find(s.owned, Prerequisite(tool))[0].Unreferenced()
  }

  lemma {:induction false} RemovalWithin(w: World, s: Session, tool: Name, automatic: bool)
    requires Sound(s) && tool in s.tools && (automatic ==> MayGo(s, tool))
    ensures Within(s, RemoveTracked(w, s, tool, automatic).0, {Prerequisite(tool)})
    decreases |s.tools|, 0, 0
  {
    hide Within, Depart, Find, Conserved, Lawful;
    WithinSame(s, {Prerequisite(tool)});
    if w.Gone(tool) {
      var left := Depart(w, s, tool, automatic);
      var rs := Releasable(s.owned, tool);
      WithinDepart(w, s, tool, automatic);
      DepartureIsLawful(w, s, tool, automatic);
      SoundAfter(w, s, left, if automatic then {} else {tool});
      if tool !in w.invalid {
        KeysAreFewer(left.tools, s.tools);
        CollectionWithin(w, left, rs);
        forall b <- s.owned | b.Unreferenced() ensures b.resource !in Elements(rs) { NotReleased(s.owned, tool, b); }
        WithinOn(s, left, Collect(w, left, rs).0, {Prerequisite(tool)}, Elements(rs), {Prerequisite(tool)});
      }
    }
  }

  lemma NotReleased(owned: seq<Record>, tool: Name, b: Record)
    requires Distinct(owned) && b in owned && b.dependents == {}
    ensures b.resource !in Releasable(owned, tool)
  {
    ReleasableMeans(owned, tool, b.resource);
    if r :| r in owned && r.resource == b.resource && r.dependents == {tool} {
      FindIs(owned, r);
      FindIs(owned, b);
    }
  }

  lemma {:induction false} CollectionWithin(w: World, s: Session, rs: seq<Resource>)
    requires Sound(s)
    ensures Within(s, Collect(w, s, rs).0, Elements(rs))
    decreases |s.tools|, 2, |rs|
  {
    hide Within, Find, Without, Lawful;
    if rs == [] {
      WithinSame(s, Elements(rs));
    } else {
      var s1 := CollectOne(w, s, rs[0]).0;
      OneWithin(w, s, rs[0]);
      OneCollectionIsLawful(w, s, rs[0]);
      SoundAfter(w, s, s1, {});
      KeysAreFewer(s1.tools, s.tools);
      CollectionWithin(w, s1, rs[1..]);
      assert Elements(rs) == {rs[0]} + Elements(rs[1..]);
      WithinOn(s, s1, Collect(w, s1, rs[1..]).0, {rs[0]}, Elements(rs[1..]), Elements(rs));
    }
  }

  lemma {:induction false} OneWithin(w: World, s: Session, r: Resource)
    requires Sound(s)
    ensures Within(s, CollectOne(w, s, r).0, {r})
    decreases |s.tools|, 1, 0
  {
    hide Within, Find, Without;
    WithinSame(s, {r});
    if r.Prerequisite? && Find(s.owned, r) != [] && Find(s.owned, r)[0].Unreferenced() {
      if r.tool in s.removed {
        WithinDrop(s, r);
      } else if !Wanted(s, r.tool) && r.tool in s.tools {
        RemovalWithin(w, s, r.tool, true);
      }
    }
  }

  // ----- the records at every departure -----

  /** Every record of `after` comes from one of `before`, with no claim more and none of `tool`'s. */
  ghost predicate Fades(before: seq<Record>, after: seq<Record>, without: set<Name>) {
    forall q <- after :: exists p <- before ::
      p.resource == q.resource && p.ownership == q.ownership && q.dependents <= p.dependents - without
  }

  lemma FadesOn(a: seq<Record>, b: seq<Record>, c: seq<Record>, n1: set<Name>, n2: set<Name>)
    requires Fades(a, b, n1) && Fades(b, c, n2)
    ensures Fades(a, c, n1 + n2)
  {
    forall q <- c
      ensures exists p <- a ::
                p.resource == q.resource && p.ownership == q.ownership && q.dependents <= p.dependents - (n1 + n2)
    {
      var m :| m in b && m.resource == q.resource && m.ownership == q.ownership && q.dependents <= m.dependents - n2;
      var p :| p in a && p.resource == m.resource && p.ownership == m.ownership && m.dependents <= p.dependents - n1;
    }
  }

  lemma ConservedFades(before: seq<Record>, after: seq<Record>, gone: set<Name>)
    requires Conserved(before, after, gone)
    ensures Fades(before, after, gone)
  {
    forall q <- after
      ensures exists p <- before ::
                p.resource == q.resource && p.ownership == q.ownership && q.dependents <= p.dependents - gone
    {
      ConservedResources(before, after, gone, q);
      var b :| b in before && q == Shed(b, gone);
    }
  }

  /** The records that the `i`-th departure found: those at the start without the claims of the departures
      before it. What is left at the end holds none of its own claims, and no source that it held last
      and cleaned up. */
  ghost predicate Chronicle(w: World, s: Session, t: Session, events: seq<Event>) {
    forall i :: 0 <= i < |events| ==>
      && Conserved(s.owned, events[i].owned, Names(events[..i]) - w.invalid)
      && Distinct(events[i].owned)
      && Fades(events[i].owned, t.owned, {events[i].tool} - w.invalid)
      && SourcesGone(w, t, events[i])
  }

  predicate SourcesGone(w: World, t: Session, e: Event) {
    e.tool !in w.invalid && SourcesCleaned(w, e.owned, e.tool) ==>
      forall r <- Releasable(e.owned, e.tool) :: r.Source? ==> Dropped(t.owned, r)
  }

  lemma ChronicleOn(w: World, s: Session, s1: Session, t: Session, n1: set<Name>, n2: set<Name>)
    requires Lawful(w, s, s1, n1) && Chronicle(w, s, s1, Departures(s, s1))
    requires Lawful(w, s1, t, n2) && Chronicle(w, s1, t, Departures(s1, t))
    ensures Departures(s, t) == Departures(s, s1) + Departures(s1, t)
    ensures Chronicle(w, s, t, Departures(s, t))
  {
    hide Conserved, Fades, JustifiedOnce, Distinct, Names, SourcesGone;
    var e1, e2, e := Departures(s, s1), Departures(s1, t), Departures(s, t);
    Regroup(s.log, e1, e2);
    assert e == e1 + e2;
    forall i | 0 <= i < |e|
      ensures Conserved(s.owned, e[i].owned, Names(e[..i]) - w.invalid) && Distinct(e[i].owned)
      ensures Fades(e[i].owned, t.owned, {e[i].tool} - w.invalid) && SourcesGone(w, t, e[i])
    {
      if i < |e1| {
        SourcesStayGone(w, s1, t, n2, e1[i]);
        assert e[i] == e1[i] && e[..i] == e1[..i];
        ConservedFades(s1.owned, t.owned, Names(e2) - w.invalid);
        FadesOn(e[i].owned, s1.owned, t.owned, {e[i].tool} - w.invalid, Names(e2) - w.invalid);
        FadesLess(e[i].owned, t.owned, ({e[i].tool} - w.invalid) + (Names(e2) - w.invalid), {e[i].tool} - w.invalid);
      } else {
        var j := i - |e1|;
        assert e[i] == e2[j] && e[..i] == e1 + e2[..j];
        NamesConcat(e1, e2[..j]);
        ConservedTransitive(s.owned, s1.owned, e[i].owned, Names(e1) - w.invalid, Names(e2[..j]) - w.invalid);
        assert (Names(e1) - w.invalid) + (Names(e2[..j]) - w.invalid) == Names(e[..i]) - w.invalid;
      }
    }
  }

  lemma SourcesStayGone(w: World, s: Session, t: Session, named: set<Name>, e: Event)
    requires Lawful(w, s, t, named) && SourcesGone(w, s, e)
    ensures SourcesGone(w, t, e)
  {
    hide Releasable, SourcesCleaned;
    ConservedFades(s.owned, t.owned, Names(Departures(s, t)) - w.invalid);
  }

  lemma SourcesDropped(w: World, s: Session, tool: Name, automatic: bool)
    ensures SourcesGone(w, Depart(w, s, tool, automatic), Event(tool, automatic, s.owned))
  {
    hide Releasable, Find, Released;
    var rs := Releasable(s.owned, tool);
    if tool !in w.invalid && SourcesCleaned(w, s.owned, tool) {
      var kept := Without(Released(s.owned, tool), Sources(rs));
      forall q <- kept ensures q.resource !in Sources(rs) { InWithout(Released(s.owned, tool), Sources(rs), q); }
      forall q <- Depart(w, s, tool, automatic).owned ensures q in kept { InWithout(kept, {Prerequisite(tool)}, q); }
    }
  }

  lemma FadesLess(a: seq<Record>, b: seq<Record>, more: set<Name>, less: set<Name>)
    requires Fades(a, b, more) && less <= more
    ensures Fades(a, b, less)
  {
  }

  lemma ChronicleNone(w: World, s: Session, t: Session)
    requires Departures(s, t) == []
    ensures Chronicle(w, s, t, Departures(s, t))
  {
  }

  lemma DepartureChronicled(w: World, s: Session, tool: Name, automatic: bool)
    requires Sound(s) && tool in s.tools && w.Gone(tool) && (automatic ==> MayGo(s, tool))
    ensures var left := Depart(w, s, tool, automatic);
            Departures(s, left) == [Event(tool, automatic, s.owned)] && Chronicle(w, s, left, Departures(s, left))
  {
    hide Conserved, Fades, Distinct, SourcesGone;
    SourcesDropped(w, s, tool, automatic);
    var left := Depart(w, s, tool, automatic);
    var e := Event(tool, automatic, s.owned);
    assert Departures(s, left) == [e];
    assert [e][..0] == [] && Names([]) == {} && Names([e]) == {tool} by { assert e in [e]; }
    assert Names([]) - w.invalid == {};
    Unchanged(s.owned);
    DepartureIsLawful(w, s, tool, automatic);
    ConservedFades(s.owned, left.owned, Names([e]) - w.invalid);
  }

  lemma {:induction false} RemovalChronicled(w: World, s: Session, tool: Name, automatic: bool)
    requires Sound(s) && tool in s.tools && (automatic ==> MayGo(s, tool))
    ensures var t := RemoveTracked(w, s, tool, automatic).0; Chronicle(w, s, t, Departures(s, t))
    decreases |s.tools|, 0, 0
  {
    hide Chronicle, Depart, Find, Conserved, Lawful, Departures;
    if w.Gone(tool) {
      var named := if automatic then {} else {tool};
      var left := Depart(w, s, tool, automatic);
      DepartureChronicled(w, s, tool, automatic);
      DepartureIsLawful(w, s, tool, automatic);
      SoundAfter(w, s, left, named);
      if tool !in w.invalid {
        var rs := Releasable(s.owned, tool);
        KeysAreFewer(left.tools, s.tools);
        CollectionChronicled(w, left, rs);
        CollectionIsLawful(w, left, rs);
        ChronicleOn(w, s, left, Collect(w, left, rs).0, named, {});
      }
    } else {
      NoDepartures(s, s);
      ChronicleNone(w, s, s);
    }
  }

  lemma NoDepartures(s: Session, t: Session)
    requires s.log == t.log
    ensures Departures(s, t) == []
  {
  }

  lemma {:induction false} CollectionChronicled(w: World, s: Session, rs: seq<Resource>)
    requires Sound(s)
    ensures var t := Collect(w, s, rs).0; Chronicle(w, s, t, Departures(s, t))
    decreases |s.tools|, 2, |rs|
  {
    hide Chronicle, Find, Conserved, Lawful, Departures, Without;
    if rs == [] {
      NoDepartures(s, s);
      ChronicleNone(w, s, s);
    } else {
      var s1 := CollectOne(w, s, rs[0]).0;
      OneChronicled(w, s, rs[0]);
      OneCollectionIsLawful(w, s, rs[0]);
      SoundAfter(w, s, s1, {});
      KeysAreFewer(s1.tools, s.tools);
      CollectionChronicled(w, s1, rs[1..]);
      CollectionIsLawful(w, s1, rs[1..]);
      ChronicleOn(w, s, s1, Collect(w, s1, rs[1..]).0, {}, {});
    }
  }

  lemma {:induction false} OneChronicled(w: World, s: Session, r: Resource)
    requires Sound(s)
    ensures var t := CollectOne(w, s, r).0; Chronicle(w, s, t, Departures(s, t))
    decreases |s.tools|, 1, 0
  {
    hide Chronicle, Find, Departures, Without;
    var t := CollectOne(w, s, r).0;
    if r.Prerequisite? && Find(s.owned, r) != [] && Find(s.owned, r)[0].Unreferenced()
      && r.tool !in s.removed && !Wanted(s, r.tool) && r.tool in s.tools {
      RemovalChronicled(w, s, r.tool, true);
    } else {
      NoDepartures(s, t);
      ChronicleNone(w, s, t);
    }
  }

  // ----- the answer -----

  /** The released resources as a departure leaves them: each helper's record is unreferenced, or gone with
      its helper. */
  ghost predicate Due(s: Session, rs: seq<Resource>) {
    && (forall i, j :: 0 <= i < j < |rs| ==> rs[i] != rs[j])
    && (forall r <- rs :: r.Prerequisite? ==>
          || (Dropped(s.owned, r) && r.tool !in s.tools)
          || (exists b <- s.owned :: b.resource == r && b.Unreferenced()))
  }

  lemma WantedAlike(w: World, s: Session, s1: Session, t: Session, named: set<Name>, r: Resource)
    requires Lawful(w, s, s1, named) && s1.removed <= t.removed
    ensures Collected(s1, t, r) <==> Collected(s, t, r)
  {
  }

  /** Whether a released resource was collected is settled once its turn is over. */
  lemma CollectedStays(w: World, s: Session, s1: Session, t: Session, d1: set<Resource>, d2: set<Resource>, r: Resource)
    requires Within(s, s1, d1) && Within(s1, t, d2) && Lawful(w, s1, t, {})
    requires Sound(s1) && (forall x :: Wanted(s1, x) ==> Wanted(s, x)) && s1.requested == s.requested
    requires forall x :: Wanted(s, x) && x !in s1.removed ==> Wanted(s1, x)
    requires r.Prerequisite? ==>
               && r !in d2
               && (forall q <- s1.owned :: q.resource == r ==> q.Unreferenced())
               && (r.tool in s.tools ==> exists p <- s.owned :: p.resource == r)
    ensures Collected(s, s1, r) <==> Collected(s, t, r)
  {
    hide Lawful;
    if r.Prerequisite? {
      if Wanted(s, r.tool) && r.tool !in s1.removed {
        WantedStays(w, s1, t, r.tool);
      }
      if r.tool !in s1.tools && Dropped(s1.owned, r) {
        DroppedStays(w, s1, t, r);
      }
      if !Dropped(s1.owned, r) {
        var q :| q in s1.owned && q.resource == r;
        assert q in t.owned;
      }
    }
  }

  lemma WantedStays(w: World, s: Session, t: Session, tool: Name)
    requires Lawful(w, s, t, {}) && Wanted(s, tool) && tool !in s.removed
    ensures tool !in t.removed
  {
    forall e <- Departures(s, t) ensures e.tool != tool { assert Justified(w, s, {}, e); }
  }

  lemma DroppedStays(w: World, s: Session, t: Session, r: Resource)
    requires Lawful(w, s, t, {}) && Dropped(s.owned, r)
    ensures Dropped(t.owned, r)
  {
    ConservedFades(s.owned, t.owned, Names(Departures(s, t)) - w.invalid);
  }

  /** What a departure on the way released is unreferenced where it is left, and was on file before. */
  lemma ReleasedOnTheWay(w: World, s: Session, s1: Session, e: Event, r: Resource)
    requires Chronicle(w, s, s1, Departures(s, s1)) && e in Departures(s, s1) && e.tool !in w.invalid
    requires r in Releasable(e.owned, e.tool)
    ensures exists p <- s.owned :: p.resource == r && p.dependents != {}
    ensures forall q <- s1.owned :: q.resource == r ==> q.Unreferenced()
  {
    hide Conserved;
    var events := Departures(s, s1);
    var i :| 0 <= i < |events| && events[i] == e;
    ReleasableMeans(e.owned, e.tool, r);
    var m :| m in e.owned && m.resource == r && m.ownership.Depengine? && m.dependents == {e.tool};
    ConservedResources(s.owned, e.owned, Names(events[..i]) - w.invalid, m);
    var p :| p in s.owned && m == Shed(p, Names(events[..i]) - w.invalid);
    assert e.tool in p.dependents;
    forall q <- s1.owned | q.resource == r ensures q.Unreferenced() {
      var b :| b in e.owned && b.resource == r && b.ownership == q.ownership && q.dependents <= b.dependents - {e.tool};
      FindIs(e.owned, b);
      FindIs(e.owned, m);
    }
  }

  /** A departure on the way to `s1` is as paid at the end as it is there. */
  lemma PaidStays(w: World, s: Session, s1: Session, t: Session, d1: set<Resource>, rest: seq<Resource>, e: Event)
    requires Sound(s) && Lawful(w, s, s1, {}) && Chronicle(w, s, s1, Departures(s, s1)) && Within(s, s1, d1)
    requires Within(s1, t, Elements(rest)) && Lawful(w, s1, t, {}) && Due(s, rest) && e in Departures(s, s1)
    ensures Paid(w, s, s1, e) <==> Paid(w, s, t, e)
  {
    hide Chronicle, Within, Lawful, Collected, Due, Departures, Conserved;
    SoundAfter(w, s, s1, {});
    WantedBoth(w, s, s1);
    if e.tool !in w.invalid {
      forall r <- Releasable(e.owned, e.tool) ensures Collected(s, s1, r) <==> Collected(s, t, r) {
        ReleasedOnTheWay(w, s, s1, e, r);
        NotDue(s, rest, r);
        CollectedStays(w, s, s1, t, d1, Elements(rest), r);
      }
    }
  }

  lemma NotDue(s: Session, rest: seq<Resource>, r: Resource)
    requires Sound(s) && Due(s, rest) && exists p <- s.owned :: p.resource == r && p.dependents != {}
    ensures r.Prerequisite? ==> r !in rest
  {
    var p :| p in s.owned && p.resource == r && p.dependents != {};
    if r.Prerequisite? && r in rest {
      var b :| b in s.owned && b.resource == r && b.Unreferenced();
      FindIs(s.owned, b);
      FindIs(s.owned, p);
    }
  }

  lemma WantedBoth(w: World, s: Session, s1: Session)
    requires Lawful(w, s, s1, {})
    ensures s1.requested == s.requested && (forall x :: Wanted(s1, x) ==> Wanted(s, x))
    ensures forall x :: Wanted(s, x) && x !in s1.removed ==> Wanted(s1, x)
  {
  }

  /** Removing one tool succeeds exactly when its target is gone and every departure on the way did all it
      owed. */
  lemma {:induction false} RemovalAnswers(w: World, s: Session, tool: Name, automatic: bool)
    requires Sound(s) && tool in s.tools && (automatic ==> MayGo(s, tool))
    ensures var (t, ok) := RemoveTracked(w, s, tool, automatic); ok <==> w.Gone(tool) && AllPaid(w, s, t)
    decreases |s.tools|, 0, 0
  {
    hide Depart, Find, Lawful, Collected, Chronicle, SourcesCleaned, Within, Due;
    if w.Gone(tool) {
      var named := if automatic then {} else {tool};
      var e := Event(tool, automatic, s.owned);
      var left := Depart(w, s, tool, automatic);
      DepartureChronicled(w, s, tool, automatic);
      DepartureIsLawful(w, s, tool, automatic);
      SoundAfter(w, s, left, named);
      if tool in w.invalid {
        assert e in Departures(s, left);
      } else {
        var rs := Releasable(s.owned, tool);
        var t := Collect(w, left, rs).0;
        KeysAreFewer(left.tools, s.tools);
        ReleasedAreDue(w, s, tool, automatic);
        CollectionAnswers(w, left, rs);
        CollectionIsLawful(w, left, rs);
        CollectionChronicled(w, left, rs);
        ChronicleOn(w, s, left, t, named, {});
        PaidFrom(w, s, left, t, named, e);
      }
    }
  }

  lemma PaidFrom(w: World, s: Session, left: Session, t: Session, named: set<Name>, e: Event)
    requires Lawful(w, s, left, named) && Lawful(w, left, t, {})
    requires Departures(s, left) == [e] && Departures(s, t) == [e] + Departures(left, t) && e.tool !in w.invalid
    ensures AllPaid(w, s, t)
            <==> SourcesCleaned(w, e.owned, e.tool) && AllPaid(w, left, t)
                 && forall r <- Releasable(e.owned, e.tool) :: Collected(left, t, r)
  {
    hide SourcesCleaned, Collected, Lawful, Departures, Paid;
    RemovedGrows(w, left, t);
    forall r ensures Collected(left, t, r) <==> Collected(s, t, r) { WantedAlike(w, s, left, t, named, r); }
    forall x ensures Paid(w, left, t, x) <==> Paid(w, s, t, x) { PaidAlike(w, s, left, t, x); }
    PaidMeans(w, left, t, e);
    assert forall x <- Departures(s, t) :: x == e || x in Departures(left, t);
    assert e in Departures(s, t) && forall x <- Departures(left, t) :: x in Departures(s, t);
  }

  lemma PaidMeans(w: World, s: Session, t: Session, e: Event)
    requires e.tool !in w.invalid
    ensures Paid(w, s, t, e)
            <==> SourcesCleaned(w, e.owned, e.tool) && forall r <- Releasable(e.owned, e.tool) :: Collected(s, t, r)
  {
    hide Releasable, Collected;
    var rs := Releasable(e.owned, e.tool);
    assert Sources(rs) == {} <==> forall r <- rs :: !r.Source? by {
      forall r <- rs | r.Source? ensures r in Sources(rs) {}
    }
  }

  lemma RemovedGrows(w: World, s: Session, t: Session)
    requires Lawful(w, s, t, {})
    ensures s.removed <= t.removed
  {
  }

  lemma {:induction false} ReleasableDistinct(owned: seq<Record>, tool: Name)
    requires Distinct(owned)
    ensures forall i, j :: 0 <= i < j < |Releasable(owned, tool)| ==>
              Releasable(owned, tool)[i] != Releasable(owned, tool)[j]
    decreases |owned|
  {
    if owned != [] {
      ReleasableDistinct(owned[1..], tool);
      var rest := Releasable(owned[1..], tool);
      ReleasableMeans(owned[1..], tool, owned[0].resource);
      forall q <- owned[1..] ensures q.resource != owned[0].resource {
        var k :| 0 <= k < |owned[1..]| && owned[1..][k] == q;
        assert owned[0].resource != owned[k + 1].resource;
      }
    }
  }

  lemma ReleasedAreDue(w: World, s: Session, tool: Name, automatic: bool)
    requires Sound(s) && tool in s.tools && tool !in w.invalid
    ensures Due(Depart(w, s, tool, automatic), Releasable(s.owned, tool))
  {
    hide Releasable, Find;
    var left := Depart(w, s, tool, automatic);
    var rs := Releasable(s.owned, tool);
    ReleasableDistinct(s.owned, tool);
    forall r <- rs | r.Prerequisite?
      ensures (Dropped(left.owned, r) && r.tool !in left.tools)
              || exists b <- left.owned :: b.resource == r && b.Unreferenced()
    {
      ReleasableMeans(s.owned, tool, r);
      var b :| b in s.owned && b.resource == r && b.ownership.Depengine? && b.dependents == {tool};
      var b' := b.(dependents := b.dependents - {tool});
      StaysReleased(s.owned, tool, b);
      var released := Released(s.owned, tool);
      InWithout(released, Sources(rs), b');
      var kept := if SourcesCleaned(w, s.owned, tool) then Without(released, Sources(rs)) else released;
      InWithout(kept, {Prerequisite(tool)}, b');
      if r.tool == tool && b' !in left.owned {
        forall q <- left.owned ensures q.resource != r { InWithout(kept, {Prerequisite(tool)}, q); }
      }
    }
  }

  /** Collecting released resources succeeds exactly when each was collected and every departure on the
      way did all it owed. */
  lemma {:induction false} CollectionAnswers(w: World, s: Session, rs: seq<Resource>)
    requires Sound(s) && Due(s, rs)
    ensures var (t, ok) := Collect(w, s, rs); ok <==> AllPaid(w, s, t) && forall r <- rs :: Collected(s, t, r)
    decreases |s.tools|, 2, |rs|
  {
    hide Find, Lawful, Collected, Chronicle, SourcesCleaned, Within, Due, Without, Departures;
    if rs == [] {
      NoDepartures(s, s);
    } else {
      var r, rest := rs[0], rs[1..];
      var (s1, ok1) := CollectOne(w, s, r);
      var t := Collect(w, s1, rest).0;
      DueParts(s, rs);
      OneAnswers(w, s, r);
      OneWithin(w, s, r);
      OneCollectionIsLawful(w, s, r);
      OneChronicled(w, s, r);
      SoundAfter(w, s, s1, {});
      KeysAreFewer(s1.tools, s.tools);
      DueLater(w, s, s1, r, rest);
      CollectionAnswers(w, s1, rest);
      CollectionIsLawful(w, s1, rest);
      CollectionWithin(w, s1, rest);
      CollectionChronicled(w, s1, rest);
      ChronicleOn(w, s, s1, t, {}, {});
      JoinedAnswers(w, s, s1, t, rs);
    }
  }

  lemma DueParts(s: Session, rs: seq<Resource>)
    requires rs != [] && Due(s, rs)
    ensures Due(s, [rs[0]]) && Due(s, rs[1..]) && rs[0] !in rs[1..]
  {
    assert forall x <- rs[1..] :: x in rs;
    assert rs[0] in rs;
  }

  lemma DueLater(w: World, s: Session, s1: Session, r: Resource, rest: seq<Resource>)
    requires Sound(s) && Due(s, rest) && r !in rest && Within(s, s1, {r}) && Lawful(w, s, s1, {})
    ensures Due(s1, rest)
  {
    forall x <- rest | x.Prerequisite?
      ensures (Dropped(s1.owned, x) && x.tool !in s1.tools)
              || exists b <- s1.owned :: b.resource == x && b.Unreferenced()
    {
      if Dropped(s.owned, x) && x.tool !in s.tools {
        DroppedStays(w, s, s1, x);
      } else {
        var b :| b in s.owned && b.resource == x && b.Unreferenced();
        assert b in s1.owned;
      }
    }
  }

  lemma JoinedAnswers(w: World, s: Session, s1: Session, t: Session, rs: seq<Resource>)
    requires rs != [] && Sound(s) && Due(s, [rs[0]]) && Due(s, rs[1..]) && rs[0] !in rs[1..]
    requires Within(s, s1, {rs[0]}) && Lawful(w, s, s1, {}) && Chronicle(w, s, s1, Departures(s, s1))
    requires Within(s1, t, Elements(rs[1..])) && Lawful(w, s1, t, {})
    requires Departures(s, t) == Departures(s, s1) + Departures(s1, t)
    ensures (AllPaid(w, s, s1) && Collected(s, s1, rs[0]))
            && (AllPaid(w, s1, t) && forall r <- rs[1..] :: Collected(s1, t, r))
            <==> AllPaid(w, s, t) && forall r <- rs :: Collected(s, t, r)
  {
    hide Find, Lawful, Collected, Chronicle, SourcesCleaned, Within, Due, Departures, Paid;
    var e1, e2 := Departures(s, s1), Departures(s1, t);
    RemovedGrows(w, s1, t);
    forall r ensures Collected(s1, t, r) <==> Collected(s, t, r) { WantedAlike(w, s, s1, t, {}, r); }
    forall e <- e1 ensures Paid(w, s, s1, e) <==> Paid(w, s, t, e) { PaidStays(w, s, s1, t, {rs[0]}, rs[1..], e); }
    forall e <- e2 ensures Paid(w, s1, t, e) <==> Paid(w, s, t, e) { PaidAlike(w, s, s1, t, e); }
    FirstStays(w, s, s1, t, rs);
    assert forall e <- e1 + e2 :: e in e1 || e in e2;
    assert (forall e <- e1 :: e in e1 + e2) && (forall e <- e2 :: e in e1 + e2);
    assert forall r <- rs :: r == rs[0] || r in rs[1..];
    assert rs[0] in rs && forall r <- rs[1..] :: r in rs;
  }

  lemma PaidAlike(w: World, s: Session, s1: Session, t: Session, e: Event)
    requires forall r :: Collected(s1, t, r) <==> Collected(s, t, r)
    ensures Paid(w, s1, t, e) <==> Paid(w, s, t, e)
  {
  }

  lemma FirstStays(w: World, s: Session, s1: Session, t: Session, rs: seq<Resource>)
    requires rs != [] && Sound(s) && Due(s, [rs[0]]) && rs[0] !in rs[1..]
    requires Within(s, s1, {rs[0]}) && Lawful(w, s, s1, {})
    requires Within(s1, t, Elements(rs[1..])) && Lawful(w, s1, t, {})
    ensures Collected(s, s1, rs[0]) <==> Collected(s, t, rs[0])
  {
    hide Lawful, Collected, Within;
    var r := rs[0];
    SoundAfter(w, s, s1, {});
    WantedBoth(w, s, s1);
    assert r in [r];
    LawfulFades(w, s, s1);
    if r.Prerequisite? && !Dropped(s.owned, r) {
      var b :| b in s.owned && b.resource == r && b.Unreferenced();
      forall q <- s1.owned | q.resource == r ensures q.Unreferenced() {
        var p :| p in s.owned && p.resource == r && p.ownership == q.ownership && q.dependents <= p.dependents;
        FindIs(s.owned, p);
        FindIs(s.owned, b);
      }
    }
    CollectedStays(w, s, s1, t, {r}, Elements(rs[1..]), r);
  }

  lemma LawfulFades(w: World, s: Session, t: Session)
    requires Lawful(w, s, t, {})
    ensures forall q <- t.owned :: exists p <- s.owned ::
              p.resource == q.resource && p.ownership == q.ownership && q.dependents <= p.dependents
  {
    var gone := Names(Departures(s, t)) - w.invalid;
    ConservedFades(s.owned, t.owned, gone);
    forall q <- t.owned
      ensures exists p <- s.owned ::
                && p.resource == q.resource && p.ownership == q.ownership
                && q.dependents <= p.dependents
    {
      var p :| p in s.owned && p.resource == q.resource && p.ownership == q.ownership
               && q.dependents <= p.dependents - gone;
    }
  }

  lemma {:induction false} OneAnswers(w: World, s: Session, r: Resource)
    requires Sound(s) && Due(s, [r])
    ensures var (t, ok) := CollectOne(w, s, r); ok <==> AllPaid(w, s, t) && Collected(s, t, r)
    decreases |s.tools|, 1, 0
  {
    hide Find, Without, Releasable, SourcesCleaned, Paid, Depart;
    if r.Prerequisite? {
      DueIsFound(s, r);
    }
    if r.Prerequisite? && MayGo(s, r.tool) && r.tool !in s.removed {
      assert CollectOne(w, s, r) == RemoveTracked(w, s, r.tool, true);
      RemovalAnswers(w, s, r.tool, true);
      if w.Gone(r.tool) {
        GoneWithRecord(w, s, r.tool);
      } else {
        FoundIsThere(s.owned, r);
      }
    } else {
      NoDepartures(s, CollectOne(w, s, r).0);
      if r.Prerequisite? && Find(s.owned, r) != [] {
        FoundIsThere(s.owned, r);
        DroppedWithout(s.owned, r);
      }
    }
  }

  lemma {:induction false} FindNone(owned: seq<Record>, r: Resource)
    ensures Find(owned, r) == [] <==> Dropped(owned, r)
    decreases |owned|
  {
    if owned != [] {
      FindNone(owned[1..], r);
      assert forall q <- owned :: q == owned[0] || q in owned[1..];
      assert owned[0] in owned && forall q <- owned[1..] :: q in owned;
    }
  }

  lemma FoundIsThere(owned: seq<Record>, r: Resource)
    requires Find(owned, r) != []
    ensures !Dropped(owned, r)
  {
    FindNone(owned, r);
  }

  lemma DueIsFound(s: Session, r: Resource)
    requires Sound(s) && Due(s, [r]) && r.Prerequisite?
    ensures Find(s.owned, r) == [] ==> Dropped(s.owned, r) && r.tool !in s.tools
    ensures Find(s.owned, r) != [] ==> Find(s.owned, r)[0].Unreferenced()
  {
    FindNone(s.owned, r);
    assert r in [r];
    if Find(s.owned, r) != [] {
      Found(s.owned, r);
      var b :| b in s.owned && b.resource == r && b.Unreferenced();
      FindIs(s.owned, b);
    }
  }

  lemma DroppedWithout(owned: seq<Record>, r: Resource)
    ensures Dropped(Without(owned, {r}), r)
  {
    forall q <- Without(owned, {r}) ensures q.resource != r { InWithout(owned, {r}, q); }
  }

  lemma GoneWithRecord(w: World, s: Session, tool: Name)
    requires Sound(s) && MayGo(s, tool) && w.Gone(tool)
    ensures var t := RemoveTracked(w, s, tool, true).0;
            && (AllPaid(w, s, t) ==> tool !in t.tools && Dropped(t.owned, Prerequisite(tool)))
  {
    hide Find, Lawful, Paid, Within, Chronicle;
    var left := Depart(w, s, tool, true);
    var e := Event(tool, true, s.owned);
    DepartureChronicled(w, s, tool, true);
    DepartureIsLawful(w, s, tool, true);
    SoundAfter(w, s, left, {});
    if tool in w.invalid {
      assert e in Departures(s, left);
      assert !Paid(w, s, left, e) by { UnpaidName(w, s, left, e); }
    } else {
      var rs := Releasable(s.owned, tool);
      FinalizedAtDeparture(w, s, tool, true);
      CollectionIsLawful(w, left, rs);
      DroppedStays(w, left, Collect(w, left, rs).0, Prerequisite(tool));
      LawfulShrinks(w, left, Collect(w, left, rs).0);
    }
  }

  lemma UnpaidName(w: World, s: Session, t: Session, e: Event)
    requires e.tool in w.invalid
    ensures !Paid(w, s, t, e)
  {
  }

  lemma LawfulShrinks(w: World, s: Session, t: Session)
    requires Lawful(w, s, t, {})
    ensures t.tools.Keys <= s.tools.Keys
  {
  }

  lemma FinalizedAtDeparture(w: World, s: Session, tool: Name, automatic: bool)
    requires Sound(s) && tool !in w.invalid
    requires Find(s.owned, Prerequisite(tool)) != [] && Find(s.owned, Prerequisite(tool))[0].Unreferenced()
    ensures Dropped(Depart(w, s, tool, automatic).owned, Prerequisite(tool))
  {
    hide Find, Without, Releasable;
    var b := Find(s.owned, Prerequisite(tool))[0];
    Found(s.owned, Prerequisite(tool));
    StaysReleased(s.owned, tool, b);
    assert b.dependents - {tool} == b.dependents;
    var released := Released(s.owned, tool);
    var sources := Sources(Releasable(s.owned, tool));
    ReleaseConserves(s.owned, tool);
    ConservedDistinct(s.owned, released, {tool});
    FindIs(released, b);
    FindWithout(released, sources, Prerequisite(tool));
    var kept := if SourcesCleaned(w, s.owned, tool) then Without(released, sources) else released;
    assert Find(kept, Prerequisite(tool)) == [b];
    DroppedWithout(kept, Prerequisite(tool));
  }

  // ----- an explicit removal -----

  /** Nobody outside the scheduled removals still needs the tool. */
  predicate Unblocked(s: Session, tool: Name) {
    forall b <- s.owned :: b.resource == Prerequisite(tool) ==> b.dependents <= s.requested
  }

  /** The answer to an explicit removal of a tracked tool: it succeeds exactly when the tool's name can be
      recorded, nobody outside the scheduled removals needs it, its target is gone, and every departure
      on the way, its own first, did all it owed. */
  lemma SingleAnswers(w: World, s: Session, tool: Name)
    requires Sound(s)
    ensures var (t, ok) := RemoveSingle(w, s, tool);
            ok <==> if tool !in s.tools then tool in s.removed
                    else tool !in w.invalid && Unblocked(s, tool) && w.Gone(tool) && AllPaid(w, s, t)
  {
    hide RemoveTracked, AllPaid, World.Gone;
    if tool in s.tools {
      RemovalAnswers(w, s, tool, false);
      BlockedByRecord(s, tool);
    }
  }

  lemma BlockedByRecord(s: Session, tool: Name)
    requires Sound(s)
    ensures var found := Find(s.owned, Prerequisite(tool));
            Unblocked(s, tool) <==> !(found != [] && found[0].dependents - s.requested != {})
  {
    var found := Find(s.owned, Prerequisite(tool));
    FindNone(s.owned, Prerequisite(tool));
    if found != [] {
      Found(s.owned, Prerequisite(tool));
      assert forall d <- found[0].dependents :: d in s.requested || d in found[0].dependents - s.requested;
    }
    forall b <- s.owned | b.resource == Prerequisite(tool) ensures found == [b] { FindIs(s.owned, b); }
  }

  /** Liveness: an explicit removal that succeeds leaves nothing behind. Every helper that depengine owns and
      that lost its last claim on the way is gone with its record, unless somebody wants it for itself,
      and so is the record of every such source; chains of helpers are included. */
  lemma NothingLeftBehind(w: World, s: Session, tool: Name)
    requires Sound(s) && RemoveSingle(w, s, tool).1
    ensures LeavesNothing(s, RemoveSingle(w, s, tool).0)
  {
    hide RemoveTracked, Conserved, Collected, Justified;
    SingleAnswers(w, s, tool);
    SingleIsLawful(w, s, tool);
    var t := RemoveSingle(w, s, tool).0;
    var events := Departures(s, t);
    if tool in s.tools {
      RemovalChronicled(w, s, tool, false);
      forall b <- s.owned | b.ownership.Depengine? && b.dependents != {} && b.dependents <= Names(events)
        ensures Collected(s, t, b.resource) && (b.resource.Source? ==> Dropped(t.owned, b.resource))
      {
        var i := LastClaim(events, b.dependents);
        assert Paid(w, s, t, events[i]) by { assert events[i] in events; }
        ReleasedAtLastClaim(w, s, t, b, i);
      }
    }
  }

  /** Of what depengine owns, everything that lost its last claim was collected. */
  ghost predicate LeavesNothing(s: Session, t: Session) {
    forall b <- s.owned ::
      b.ownership.Depengine? && b.dependents != {} && b.dependents <= Names(Departures(s, t)) ==>
        Collected(s, t, b.resource) && (b.resource.Source? ==> Dropped(t.owned, b.resource))
  }

  lemma {:induction false} LastClaim(events: seq<Event>, claims: set<Name>) returns (i: nat)
    requires claims != {} && claims <= Names(events)
    requires forall i, j :: 0 <= i < j < |events| ==> events[i].tool != events[j].tool
    ensures i < |events| && events[i].tool in claims && claims <= Names(events[..i]) + {events[i].tool}
    ensures events[i].tool !in Names(events[..i])
    decreases |events|
  {
    hide Names;
    if events == [] { NoNames(); }
    var before, last := events[..|events| - 1], events[|events| - 1];
    assert events == before + [last];
    LastName(before, last);
    if last.tool in claims {
      i := |events| - 1;
      forall e <- before ensures e.tool != last.tool {
        var j :| 0 <= j < |before| && before[j] == e;
        assert events[j] == e;
      }
      NotAmong(before, last.tool);
    } else {
      i := LastClaim(before, claims);
      assert events[..i] == before[..i];
    }
  }

  lemma NoNames()
    ensures Names([]) == {}
  {
  }

  lemma LastName(before: seq<Event>, last: Event)
    ensures Names(before + [last]) == Names(before) + {last.tool}
  {
    NamesConcat(before, [last]);
    assert last in [last];
  }

  lemma NotAmong(events: seq<Event>, tool: Name)
    requires forall e <- events :: e.tool != tool
    ensures tool !in Names(events)
  {
  }

  lemma ReleasedAtLastClaim(w: World, s: Session, t: Session, b: Record, i: nat)
    requires Sound(s) && Chronicle(w, s, t, Departures(s, t)) && i < |Departures(s, t)| && b in s.owned
    requires AllPaid(w, s, t) && b.ownership.Depengine?
    requires var events := Departures(s, t);
             events[i].tool in b.dependents && events[i].tool !in Names(events[..i])
             && b.dependents <= Names(events[..i]) + {events[i].tool}
    ensures var e := Departures(s, t)[i]; b.resource in Releasable(e.owned, e.tool)
  {
    hide Conserved, Collected, Releasable, SourcesCleaned;
    var events := Departures(s, t);
    var e, gone := events[i], Names(events[..i]) - w.invalid;
    ClaimedSurvives(s.owned, e.owned, gone, b);
    forall x <- events[..i] ensures x.tool !in w.invalid {
      assert x in events && Paid(w, s, t, x);
    }
    assert Shed(b, gone).dependents == {e.tool};
    ReleasableMeans(e.owned, e.tool, b.resource);
  }

  // ----- one explicit removal after another -----

  /** A helper's unreferenced record stays with its helper, and goes with it. */
  lemma KeptOrGone(w: World, s: Session, tool: Name, b: Record)
    requires Sound(s) && RemoveSingle(w, s, tool).1 && b in s.owned && b.resource.Prerequisite? && b.Unreferenced()
    requires b.resource.tool in s.tools
    ensures var t := RemoveSingle(w, s, tool).0;
            if tool == b.resource.tool then tool !in t.tools && Dropped(t.owned, b.resource)
            else b in t.owned && b.resource.tool in t.tools
  {
    hide Find, Within, Lawful, Depart, Releasable;
    if tool in s.tools {
      SingleAnswers(w, s, tool);
      RemovalWithin(w, s, tool, false);
      if tool == b.resource.tool {
        var left := Depart(w, s, tool, false);
        FindIs(s.owned, b);
        FinalizedAtDeparture(w, s, tool, false);
        DepartureIsLawful(w, s, tool, false);
        SoundAfter(w, s, left, {tool});
        DepartedIsGone(w, s, tool);
        CollectionIsLawful(w, left, Releasable(s.owned, tool));
        DroppedStays(w, left, Collect(w, left, Releasable(s.owned, tool)).0, b.resource);
        LawfulShrinks(w, left, Collect(w, left, Releasable(s.owned, tool)).0);
      } else {
        WithinKeeps(s, RemoveSingle(w, s, tool).0, {Prerequisite(tool)}, b);
      }
    }
  }

  lemma DepartedIsGone(w: World, s: Session, tool: Name)
    ensures tool !in Depart(w, s, tool, false).tools
  {
  }

  lemma WithinKeeps(s: Session, t: Session, due: set<Resource>, b: Record)
    requires Within(s, t, due) && b in s.owned && b.resource.Prerequisite? && b.Unreferenced() && b.resource !in due
    ensures b in t.owned && (b.resource.tool in s.tools ==> b.resource.tool in t.tools)
  {
  }

  lemma {:induction false} KeptOrGoneAfterAll(w: World, s: Session, arguments: seq<Name>, b: Record)
    requires Sound(s) && RemoveEach(w, s, arguments).1
    requires b in s.owned && b.resource.Prerequisite? && b.Unreferenced() && b.resource.tool in s.tools
    ensures var t := RemoveEach(w, s, arguments).0;
            b.resource.tool in t.tools || Dropped(t.owned, b.resource)
    decreases |arguments|
  {
    hide RemoveSingle, Lawful, Distinct;
    if arguments != [] {
      var s1 := RemoveSingle(w, s, arguments[0]).0;
      SoundSingle(w, s, arguments[0]);
      KeptOrGone(w, s, arguments[0], b);
      if arguments[0] == b.resource.tool {
        EachIsLawful(w, s1, arguments[1..]);
        StaysDropped(w, s1, RemoveEach(w, s1, arguments[1..]).0, Elements(arguments[1..]), b.resource);
      } else {
        KeptOrGoneAfterAll(w, s1, arguments[1..], b);
      }
    }
  }

  lemma SoundSingle(w: World, s: Session, tool: Name)
    requires Sound(s)
    ensures Sound(RemoveSingle(w, s, tool).0) && Lawful(w, s, RemoveSingle(w, s, tool).0, {tool})
  {
    SingleIsLawful(w, s, tool);
    SoundAfter(w, s, RemoveSingle(w, s, tool).0, {tool});
  }

  lemma EachIsLawful(w: World, s: Session, arguments: seq<Name>)
    requires Sound(s)
    ensures Lawful(w, s, RemoveEach(w, s, arguments).0, Elements(arguments))
  {
    RemoveEachIsLawful(w, s, arguments);
  }

  lemma StaysDropped(w: World, s: Session, t: Session, named: set<Name>, r: Resource)
    requires Lawful(w, s, t, named)
    ensures Dropped(s.owned, r) ==> Dropped(t.owned, r)
    ensures t.tools.Keys <= s.tools.Keys && s.removed <= t.removed && t.requested == s.requested
    ensures t.tools.Keys == s.tools.Keys - Names(Departures(s, t)) && t.removed == s.removed + Names(Departures(s, t))
  {
    ConservedFades(s.owned, t.owned, Names(Departures(s, t)) - w.invalid);
  }

  /** A whole list of explicit removals that succeeds leaves nothing behind, whichever visit took the last
      claim away. */
  lemma {:induction false} RunLeavesNothing(w: World, s: Session, arguments: seq<Name>)
    requires Sound(s) && RemoveEach(w, s, arguments).1
    ensures LeavesNothing(s, RemoveEach(w, s, arguments).0)
    decreases |arguments|
  {
    hide RemoveSingle, Lawful, Distinct, LeavesNothing, Sound;
    if arguments == [] {
      NothingLeaves(s);
    } else {
      var s1 := RemoveSingle(w, s, arguments[0]).0;
      var t := RemoveEach(w, s1, arguments[1..]).0;
      SoundSingle(w, s, arguments[0]);
      NothingLeftBehind(w, s, arguments[0]);
      SingleNames(w, s, arguments[0]);
      EachIsLawful(w, s1, arguments[1..]);
      RunLeavesNothing(w, s1, arguments[1..]);
      forall b <- s.owned | b.ownership.Depengine? && b.dependents != {} && b.dependents <= Names(Departures(s, t))
        ensures Collected(s, t, b.resource) && (b.resource.Source? ==> Dropped(t.owned, b.resource))
      {
        OneRecord(w, s, arguments, b);
      }
      LeftNothing(s, t);
    }
  }

  lemma NothingLeaves(s: Session)
    ensures LeavesNothing(s, s)
  {
    NoDepartures(s, s);
  }

  lemma LeftNothing(s: Session, t: Session)
    requires forall b <- s.owned ::
               b.ownership.Depengine? && b.dependents != {} && b.dependents <= Names(Departures(s, t)) ==>
                 Collected(s, t, b.resource) && (b.resource.Source? ==> Dropped(t.owned, b.resource))
    ensures LeavesNothing(s, t)
  {
  }

  lemma SingleNames(w: World, s: Session, tool: Name)
    requires Sound(s) && RemoveSingle(w, s, tool).1
    ensures Names(Departures(s, RemoveSingle(w, s, tool).0)) !! w.invalid
  {
    hide RemoveTracked;
    SingleAnswers(w, s, tool);
    var t := RemoveSingle(w, s, tool).0;
    if tool !in s.tools { NoDepartures(s, t); }
    forall e <- Departures(s, t) ensures e.tool !in w.invalid { assert Paid(w, s, t, e); }
  }

  lemma OneRecord(w: World, s: Session, arguments: seq<Name>, b: Record)
    requires arguments != [] && Sound(s) && RemoveEach(w, s, arguments).1
    requires var s1 := RemoveSingle(w, s, arguments[0]).0;
             LeavesNothing(s, s1) && LeavesNothing(s1, RemoveEach(w, s1, arguments[1..]).0)
    requires b in s.owned && b.ownership.Depengine? && b.dependents != {}
    requires b.dependents <= Names(Departures(s, RemoveEach(w, s, arguments).0))
    ensures var t := RemoveEach(w, s, arguments).0;
            Collected(s, t, b.resource) && (b.resource.Source? ==> Dropped(t.owned, b.resource))
  {
    hide RemoveSingle, Lawful, Sound, Conserved, Collected, Dropped, Names, Distinct;
    var s1 := RemoveSingle(w, s, arguments[0]).0;
    var t := RemoveEach(w, s1, arguments[1..]).0;
    var n1, n2 := Names(Departures(s, s1)), Names(Departures(s1, t));
    SoundSingle(w, s, arguments[0]);
    SingleNames(w, s, arguments[0]);
    EachIsLawful(w, s1, arguments[1..]);
    BothDepart(w, s, s1, t, {arguments[0]}, Elements(arguments[1..]));
    StaysDropped(w, s1, t, Elements(arguments[1..]), b.resource);
    if b.dependents <= n1 {
      OldRecord(w, s, s1, arguments, b);
    } else {
      NewRecord(w, s, s1, {arguments[0]}, b);
      var b1 := Shed(b, n1);
      assert b1 in s1.owned && b1.resource == b.resource && b1.dependents == b.dependents - n1;
      assert b.dependents - n1 <= n2 && b.dependents - n1 != {} by {
        var d :| d in b.dependents && d !in n1;
        assert d in b.dependents - n1;
      }
      WantedAlike(w, s, s1, t, {arguments[0]}, b.resource);
    }
  }

  lemma BothDepart(w: World, s: Session, s1: Session, t: Session, n1: set<Name>, n2: set<Name>)
    requires Lawful(w, s, s1, n1) && Lawful(w, s1, t, n2)
    ensures Names(Departures(s, t)) == Names(Departures(s, s1)) + Names(Departures(s1, t))
  {
    hide Conserved, JustifiedOnce, Distinct;
    var e1, e2 := Departures(s, s1), Departures(s1, t);
    Regroup(s.log, e1, e2);
    assert Departures(s, t) == e1 + e2;
    NamesConcat(e1, e2);
  }

  lemma NewRecord(w: World, s: Session, s1: Session, named: set<Name>, b: Record)
    requires Lawful(w, s, s1, named) && b in s.owned && !(b.dependents <= Names(Departures(s, s1)))
    requires Names(Departures(s, s1)) !! w.invalid
    ensures Shed(b, Names(Departures(s, s1))) in s1.owned
  {
    hide Conserved;
    var n1 := Names(Departures(s, s1));
    assert n1 - w.invalid == n1;
    ClaimedSurvives(s.owned, s1.owned, n1, b);
  }

  /** The last claim went with the first visit; a helper that stayed for a visit of its own is gone with its
      record if it had that visit. */
  lemma OldRecord(w: World, s: Session, s1: Session, arguments: seq<Name>, b: Record)
    requires arguments != [] && Sound(s) && RemoveEach(w, s, arguments).1 && s1 == RemoveSingle(w, s, arguments[0]).0
    requires b in s.owned && b.dependents <= Names(Departures(s, s1)) && Names(Departures(s, s1)) !! w.invalid
    requires b.ownership.Depengine? && Collected(s, s1, b.resource)
    ensures Collected(s, RemoveEach(w, s, arguments).0, b.resource)
  {
    hide RemoveSingle, Lawful, Conserved, Names;
    var t := RemoveEach(w, s1, arguments[1..]).0;
    var r := b.resource;
    SoundSingle(w, s, arguments[0]);
    EachIsLawful(w, s1, arguments[1..]);
    StaysDropped(w, s1, t, Elements(arguments[1..]), r);
    DepartedWereTracked(w, s1, t, Elements(arguments[1..]));
    if r.Prerequisite? && r.tool in t.removed && r.tool !in s1.removed && !Dropped(s1.owned, r) {
      var q :| q in s1.owned && q.resource == r;
      LeftUnclaimed(w, s, s1, {arguments[0]}, b, q);
      KeptOrGoneAfterAll(w, s1, arguments[1..], q);
    }
  }

  lemma DepartedWereTracked(w: World, s: Session, t: Session, named: set<Name>)
    requires Lawful(w, s, t, named)
    ensures Names(Departures(s, t)) <= s.tools.Keys
  {
    forall e <- Departures(s, t) ensures e.tool in s.tools { assert Justified(w, s, named, e); }
  }

  lemma LeftUnclaimed(w: World, s: Session, s1: Session, named: set<Name>, b: Record, q: Record)
    requires Lawful(w, s, s1, named) && Sound(s) && b in s.owned && q in s1.owned && q.resource == b.resource
    requires b.dependents <= Names(Departures(s, s1)) && Names(Departures(s, s1)) !! w.invalid && b.ownership.Depengine?
    ensures q.Unreferenced()
  {
    hide Conserved, Names;
    var n1 := Names(Departures(s, s1));
    assert n1 - w.invalid == n1;
    ConservedResources(s.owned, s1.owned, n1, q);
    var p :| p in s.owned && q == Shed(p, n1);
    FindIs(s.owned, p);
    FindIs(s.owned, b);
  }
}
