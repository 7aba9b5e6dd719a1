/**
 The merge as the program runs it, over objects it must not share: the result consists of new objects all the
 way down, no layer is written, and the value is the one `Layers` defines. A method whose name ends in `Beside`
 also says what its callee leaves alone.
 */
module LayerMerge {
  import opened Basics
  import opened Layers
  import opened Trees

  /** The fields a layer declares, marked in place. */
  class Presence {
    var declared: set<string>

    constructor (declared: set<string>)
      ensures this.declared == declared
    {
      this.declared := declared;
    }

    method Mark(fields: set<string>)
      modifies this
      ensures declared == old(declared) + fields
    {
      declared := declared + fields;
    }
  }

  const SPECIAL: set<string> := {"When", "Config", "SelectedDistributionWhen"}

  /** A candidate. `slots` are the fields that hold conditions, tables, lists or references; an absent one is nil. */
  class MethodCandidate {
    var kind: string
    var label_: string
    var projectRoot: string
    var locked: seq<string>
    var err: string
    var slots: map<string, Val>
    var presence: Presence
    ghost var nodes: set<Node>

    ghost predicate Valid()
      reads this, nodes
    {
      && NodesOf(slots.Values) <= nodes && Feet(slots.Values) <= nodes && AllGood(slots)
      && ("Config" in slots ==> slots["Config"].Ref? && slots["Config"].node.table)
    }

    /** The objects the candidate consists of. */
    ghost function Footprint(): set<object>
      reads this
    {
      {this, presence} + nodes
    }

    ghost function Value(): Method
      requires Valid()
      reads this, presence, nodes
    {
      MethodOf(kind, label_, projectRoot, locked, err, Meanings(slots), presence.declared)
    }

    constructor (kind: string, label_: string, projectRoot: string, locked: seq<string>, err: string,
                 slots: map<string, Val>, presence: Presence)
      requires AllGood(slots) && ("Config" in slots ==> slots["Config"].Ref? && slots["Config"].node.table)
      ensures Valid() && Footprint() == {this, presence} + old(Feet(slots.Values))
      ensures Value() == MethodOf(kind, label_, projectRoot, locked, err, old(Meanings(slots)), old(presence.declared))
    {
      this.kind, this.label_, this.projectRoot, this.locked, this.err := kind, label_, projectRoot, locked, err;
      this.slots, this.presence := slots, presence;
      this.nodes := Feet(slots.Values);
      new;
      RootsInside(slots);
    }
  }

  /** What the fields of a candidate stand for. */
  function MethodOf(kind: string, label_: string, projectRoot: string, locked: seq<string>, err: string,
                    slots: Fields, declared: set<string>): Method
  {
    Method(kind, label_, projectRoot, locked, err, At(slots, "When"), slots - SPECIAL, declared,
           if At(slots, "Config").Table? then slots["Config"].entries else map[], At(slots, "SelectedDistributionWhen"))
  }

  function At(slots: Fields, field: string): Any {
    if field in slots then slots[field] else Nil
  }

  lemma RootsInside(slots: map<string, Val>)
    requires AllGood(slots)
    ensures NodesOf(slots.Values) <= Feet(slots.Values)
  {
    forall n | n in NodesOf(slots.Values) ensures n in Feet(slots.Values) {
      var v :| v in slots.Values && v == Ref(n);
      var k :| k in slots && slots[k] == v;
      assert Good(v);
    }
  }

  method CloneMethod(m: MethodCandidate) returns (clone: MethodCandidate)
    requires m.Valid()
    ensures clone.Valid() && fresh(clone.Footprint()) && clone.Value() == m.Value()
  {
    var presence := new Presence(m.presence.declared);
    var slots := CloneFields(m.slots);
    ConfigStays(m.slots, slots);
    clone := new MethodCandidate(m.kind, m.label_, m.projectRoot, m.locked, m.err, slots, presence);
  }

  lemma ConfigStays(slots: map<string, Val>, copies: map<string, Val>)
    requires AllGood(slots) && AllGood(copies) && Meanings(slots) == Meanings(copies)
    ensures slots.Keys == copies.Keys
    ensures "Config" in slots && slots["Config"].Ref? && slots["Config"].node.table ==>
              copies["Config"].Ref? && copies["Config"].node.table
  {
    assert slots.Keys == Meanings(slots).Keys == Meanings(copies).Keys == copies.Keys;
    if "Config" in slots { assert Meaning(slots["Config"]) == Meaning(copies["Config"]); }
  }

  /** A copy of the lower table into which copies of the upper entries go, one by one. */
  method MergeTables(lower: Node, upper: Node) returns (merged: Node)
    requires lower.Valid() && lower.table && upper.Valid() && upper.table
    ensures merged.Valid() && merged.table && fresh(merged.repr)
    ensures merged.Entries() == lower.Entries() + upper.Entries()
  {
    hide Node.Valid, Node.Entries;
    ghost var low, high := lower.Entries(), upper.Entries();
    merged := lower.CloneTable();
    EntriesAre(upper);
    EntriesAre(merged);
    var pending := upper.entries.Keys;
    assert low + (high - pending) == low;
    while pending != {}
      invariant pending <= upper.entries.Keys == high.Keys
      invariant merged.Valid() && merged in merged.repr && merged.table && fresh(merged.repr)
      invariant merged.Entries() == low + (high - pending)
      invariant upper.Valid() && upper.Entries() == high
    {
      var key :| key in pending;
      PutCopy(merged, upper, key);
      assert (low + (high - pending))[key := high[key]] == low + (high - (pending - {key}));
      pending := pending - {key};
    }
    assert high - {} == high;
  }

  method PutCopy(merged: Node, upper: Node, key: string)
    requires merged.Valid() && merged.table && upper.Valid() && key in upper.entries && merged !in upper.repr
    modifies merged
    ensures merged.Valid() && merged in merged.repr && fresh(merged.repr - old(merged.repr))
    ensures upper.Valid() && upper.Entries() == old(upper.Entries()) && key in upper.Entries()
    ensures merged.Entries() == old(merged.Entries())[key := upper.Entries()[key]]
  {
    var v := CloneEntry(upper, key);
    merged.Put(key, v);
  }

  lemma EntriesAre(n: Node)
    requires n.Valid()
    ensures n.Entries().Keys == n.entries.Keys && n in n.repr
  {
  }

  method CloneEntry(n: Node, key: string) returns (v: Val)
    requires n.Valid() && key in n.entries
    ensures Good(v) && fresh(Foot(v)) && Meaning(v) == n.Entries()[key]
  {
    TableEntries(n);
    FieldOf(n.entries, key);
    v := CloneAny(n.entries[key]);
  }

  /** Upper entries go into a copy of the lower configuration, one key at a time; two tables of overrides are
      merged into a new one. */
  method MergeConfigInto(lower: Node, upper: Node) returns (config: Node)
    requires lower.Valid() && lower.table && upper.Valid() && upper.table
    ensures config.Valid() && config.table && fresh(config.repr)
    ensures config.Entries() == MergeConfig(lower.Entries(), upper.Entries())
  {
    hide Node.Valid, Node.Entries, MergeConfig;
    ghost var low, high := lower.Entries(), upper.Entries();
    config := lower.CloneTable();
    EntriesAre(upper);
    EntriesAre(config);
    MergeConfigStep(low, high, upper.entries.Keys, "");
    var pending := upper.entries.Keys;
    while pending != {}
      invariant pending <= upper.entries.Keys == high.Keys
      invariant config.Valid() && config in config.repr && config.table && fresh(config.repr)
      invariant config.Entries() == MergeConfig(low, high - pending)
      invariant upper.Valid() && upper.Entries() == high
    {
      var key :| key in pending;
      MergeConfigStep(low, high, pending, key);
      MergeKey(config, upper, key);
      pending := pending - {key};
    }
    assert high - {} == high;
  }

  lemma MergeConfigStep(low: map<string, Any>, high: map<string, Any>, pending: set<string>, key: string)
    requires pending <= high.Keys
    ensures MergeConfig(low, high - high.Keys) == low
    ensures key in pending ==>
              MergeConfig(low, high - (pending - {key})) == WithEntry(MergeConfig(low, high - pending), high, key)
  {
  }

  /** One key of the upper configuration goes into `config`. */
  function WithEntry(config: map<string, Any>, upper: map<string, Any>, key: string): map<string, Any>
    requires key in upper
  {
    config[key := if key in config then MergeEntry(key, config[key], upper[key]) else upper[key]]
  }

  method MergeKey(config: Node, upper: Node, key: string)
    requires config.Valid() && config.table && upper.Valid() && key in upper.entries && config !in upper.repr
    modifies config
    ensures config.Valid() && config in config.repr && fresh(config.repr - old(config.repr))
    ensures upper.Valid() && upper.Entries() == old(upper.Entries()) && key in upper.Entries()
    ensures config.Entries() == WithEntry(old(config.Entries()), upper.Entries(), key)
  {
    TableEntries(config);
    TableEntries(upper);
    FieldOf(upper.entries, key);
    if key in config.entries { FieldOf(config.entries, key); }
    if key in config.entries && key == "pkg_overrides" && IsTable(upper.entries[key]) && IsTable(config.entries[key]) {
      var merged := MergeTables(config.entries[key].node, upper.entries[key].node);
      config.Put(key, Ref(merged));
    } else {
      PutCopy(config, upper, key);
    }
  }

  predicate IsTable(v: Val)
    reads NodeOf(v)
  {
    v.Ref? && v.node.table
  }

  function WithField(fields: Fields, upper: Fields, field: string): Fields {
    if field in upper then fields[field := upper[field]] else fields - {field}
  }

  /** A declared field takes a copy of the upper value; a declared nil erases. */
  method AssignField(fields: map<string, Val>, upper: map<string, Val>, field: string) returns (after: map<string, Val>)
    requires AllGood(fields) && AllGood(upper)
    ensures AllGood(after) && forall n :: n in Feet(after.Values) ==> n in old(Feet(fields.Values)) || fresh(n)
    ensures Meanings(after) == WithField(old(Meanings(fields)), old(Meanings(upper)), field)
    ensures AllGood(upper) && Meanings(upper) == old(Meanings(upper))
  {
    hide AllGood, Meanings, Good, Meaning, Node.Valid;
    NamesMeant(upper);
    if field in upper {
      FieldOf(upper, field);
      var copy := CloneAny(upper[field]);
      FieldsKept(upper);
      FieldsKept(fields);
      FieldOf(upper, field);
      FieldSet(fields, field, copy);
      after := fields[field := copy];
    } else {
      FieldGone(fields, field);
      after := fields - {field};
    }
  }

  lemma NamesMeant(fields: map<string, Val>)
    requires AllGood(fields)
    ensures Meanings(fields).Keys == fields.Keys
  {
  }

  lemma OverlayStep(lower: Fields, upper: Fields, done: set<string>, field: string)
    ensures Overlay(lower, upper, done + {field}) == WithField(Overlay(lower, upper, done), upper, field)
  {
  }

  /** The declared fields replace those below, one by one. */
  method OverlayFields(lower: map<string, Val>, upper: map<string, Val>, which: set<string>)
      returns (fields: map<string, Val>)
    requires AllGood(lower) && AllGood(upper)
    ensures AllGood(fields) && forall n :: n in Feet(fields.Values) ==> n in old(Feet(lower.Values)) || fresh(n)
    ensures Meanings(fields) == Overlay(old(Meanings(lower)), old(Meanings(upper)), which)
    ensures AllGood(upper) && Meanings(upper) == old(Meanings(upper))
  {
    hide Overlay, AllGood, Meanings, Feet;
    fields := lower;
    ghost var low, high, feet := Meanings(lower), Meanings(upper), Feet(lower.Values);
    var pending := which;
    ghost var done: set<string> := {};
    OverlayNothing(low, high);
    while pending != {}
      invariant done == which - pending && pending <= which
      invariant AllGood(upper) && Meanings(upper) == high
      invariant AllGood(fields) && forall n :: n in Feet(fields.Values) ==> n in feet || fresh(n)
      invariant Meanings(fields) == Overlay(low, high, done)
    {
      var field :| field in pending;
      OverlayStep(low, high, done, field);
      fields := AssignField(fields, upper, field);
      pending := pending - {field};
      done := done + {field};
    }
    assert done == which;
  }

  /** The slots of a merged candidate, as values. */
  function MergedSlots(lower: Fields, upper: Fields, atomic: set<string>, guarded: bool,
                       config: map<string, Any>): Fields {
    var fields := Overlay(lower, upper, atomic);
    (if guarded then WithField(fields, upper, "When") else fields)["Config" := Table(config)]
  }

  lemma MergedSlotsMean(lower: Fields, upper: Fields, atomic: set<string>, guarded: bool, config: map<string, Any>)
    requires atomic <= Atomic()
    ensures var slots := MergedSlots(lower, upper, atomic, guarded, config);
            && slots - SPECIAL == Overlay(lower - SPECIAL, upper - SPECIAL, atomic)
            && At(slots, "When") == (if guarded then At(upper, "When") else At(lower, "When"))
            && At(slots, "Config") == Table(config)
            && At(slots, "SelectedDistributionWhen") == At(lower, "SelectedDistributionWhen")
  {
    hide Overlay, Atomic;
    NothingSpecial();
    assert atomic !! SPECIAL;
    OverlayOutside(lower, upper, atomic);
    var fields := Overlay(lower, upper, atomic);
    var guardedFields := if guarded then WithField(fields, upper, "When") else fields;
    assert guardedFields - SPECIAL == fields - SPECIAL;
    assert guardedFields["Config" := Table(config)] - SPECIAL == guardedFields - SPECIAL;
  }

  lemma NothingSpecial()
    ensures Atomic() !! SPECIAL
  {
  }

  lemma OverlayOutside(lower: Fields, upper: Fields, atomic: set<string>)
    requires atomic !! SPECIAL
    ensures Overlay(lower, upper, atomic) - SPECIAL == Overlay(lower - SPECIAL, upper - SPECIAL, atomic)
    ensures forall f :: f in SPECIAL ==> At(Overlay(lower, upper, atomic), f) == At(lower, f)
  {
  }

  method MergeSlots(lower: map<string, Val>, upper: map<string, Val>, atomic: set<string>, guarded: bool, config: Node)
      returns (slots: map<string, Val>)
    requires AllGood(lower) && AllGood(upper) && config.Valid() && config.table
    ensures AllGood(slots) && "Config" in slots && slots["Config"] == Ref(config)
    ensures forall n :: n in Feet(slots.Values) ==> n in old(config.repr) || fresh(n)
    ensures Meanings(slots)
            == MergedSlots(old(Meanings(lower)), old(Meanings(upper)), atomic, guarded, old(config.Entries()))
  {
    hide Overlay;
    ghost var entries, low, high := config.Entries(), Meanings(lower), Meanings(upper);
    slots := CloneFields(lower);
    assert AllGood(upper) && Meanings(upper) == high && Meanings(slots) == low;
    slots := OverlayFields(slots, upper, atomic);
    ghost var overlaid := Meanings(slots);
    assert overlaid == Overlay(low, high, atomic) && Meanings(upper) == high;
    if guarded {
      slots := AssignField(slots, upper, "When");
    }
    ghost var fields := Meanings(slots);
    assert fields == if guarded then WithField(overlaid, high, "When") else overlaid;
    assert config.Valid() && config.Entries() == entries;
    TableMeans(config);
    FieldSet(slots, "Config", Ref(config));
    assert Meanings(slots) == fields && Meaning(Ref(config)) == Table(entries);
    slots := slots["Config" := Ref(config)];
    assert Meanings(slots) == MergedSlots(low, high, atomic, guarded, entries);
  }

  lemma TableMeans(n: Node)
    requires n.Valid() && n.table
    ensures Good(Ref(n)) && Meaning(Ref(n)) == Table(n.Entries()) && Foot(Ref(n)) == n.repr
  {
  }

  /** The configuration of a candidate; a nil one counts as an empty table. */
  method ConfigOf(m: MethodCandidate) returns (config: Node)
    requires m.Valid()
    ensures config.Valid() && config.table && config.Entries() == old(m.Value().config)
    ensures m.Valid() && m.Value() == old(m.Value())
  {
    if "Config" in m.slots {
      config := m.slots["Config"].node;
      FieldOf(m.slots, "Config");
      TableMeans(config);
    } else {
      config := new Node(true, map[], []);
      assert config.Entries().Keys == {};
    }
  }

  method MergedConfig(lower: MethodCandidate, upper: MethodCandidate) returns (config: Node)
    requires lower.Valid() && upper.Valid()
    ensures config.Valid() && config.table && fresh(config.repr)
    ensures config.Entries() == MergeConfig(old(lower.Value().config), old(upper.Value().config))
    ensures lower.Valid() && lower.Value() == old(lower.Value()) && upper.Valid() && upper.Value() == old(upper.Value())
  {
    hide MergeConfig, MethodOf;
    ghost var low, high := lower.Value(), upper.Value();
    var below := ConfigOf(lower);
    assert upper.Valid() && upper.Value() == high;
    var above := ConfigOf(upper);
    assert below.Valid() && below.Entries() == low.config;
    config := MergeConfigInto(below, above);
  }

  /** The declared fields of a merged candidate, marked in a copy of those below. */
  method MergePresence(lower: MethodCandidate, upper: MethodCandidate)
      returns (presence: Presence, atomic: set<string>, guarded: bool)
    requires lower.Valid() && upper.Valid()
    ensures fresh(presence) && atomic == old(upper.Value().declared) * Atomic()
            && guarded == old(upper.Value().Guarded())
    ensures presence.declared == old(lower.Value().declared) + atomic + if guarded then {"When"} else {}
    ensures lower.Valid() && lower.Value() == old(lower.Value()) && upper.Valid() && upper.Value() == old(upper.Value())
  {
    hide Atomic, MethodCandidate.Valid, MethodCandidate.Value;
    DeclaredOf(lower);
    DeclaredOf(upper);
    GuardOf(upper);
    atomic := upper.presence.declared * Atomic();
    guarded := "When" in upper.presence.declared || ("When" in upper.slots && upper.slots["When"] != Leaf(Nil));
    presence := new Presence(lower.presence.declared);
    presence.Mark(atomic);
    if guarded {
      presence.Mark({"When"});
    }
    MethodKept(lower);
    MethodKept(upper);
  }

  twostate lemma MethodKept(m: MethodCandidate)
    requires old(m.Valid()) && unchanged(old(m.Footprint()))
    ensures m.Valid() && m.Value() == old(m.Value())
  {
    hide MethodCandidate.Valid, MethodCandidate.Value;
  }

  lemma GuardOf(m: MethodCandidate)
    requires m.Valid()
    ensures m.Value().Guarded()
            <==> "When" in m.presence.declared || ("When" in m.slots && m.slots["When"] != Leaf(Nil))
  {
    WhenMeans(m.slots);
  }

  lemma WhenMeans(slots: map<string, Val>)
    requires AllGood(slots)
    ensures At(Meanings(slots), "When") != Nil <==> "When" in slots && slots["When"] != Leaf(Nil)
  {
    if "When" in slots {
      FieldOf(slots, "When");
      match slots["When"]
      case Leaf(_) =>
      case Ref(node) => assert node.Value() != Nil;
    }
  }

  /** The method of the upper layer over the one below, all of it new. */
  method MergeMethodConfigs(lower: MethodCandidate, upper: MethodCandidate) returns (result: MethodCandidate)
    requires lower.Valid() && upper.Valid()
    ensures result.Valid() && fresh(result.Footprint())
    ensures result.Value() == MergeMethod(old(lower.Value()), old(upper.Value()))
  {
    hide *;
    ghost var low, high := lower.Value(), upper.Value();
    var presence, atomic, guarded := MergePresence(lower, upper);
    var config := MergedConfig(lower, upper);
    DeclaredOf(lower);
    DeclaredOf(upper);
    ghost var ls, hs := Meanings(lower.slots), Meanings(upper.slots);
    MethodMerges(low, high, ls, hs);
    var slots := MergeSlots(lower.slots, upper.slots, atomic, guarded, config);
    result := new MethodCandidate(upper.kind, upper.label_, upper.projectRoot, upper.locked, upper.err, slots,
                                  presence);
  }

  lemma DeclaredOf(m: MethodCandidate)
    requires m.Valid()
    ensures var v := m.Value();
            && v.declared == m.presence.declared && v.kind == m.kind && v.label_ == m.label_
            && v.projectRoot == m.projectRoot
            && v.locked == m.locked && v.err == m.err
    ensures AllGood(m.slots)
    ensures m.Value()
            == MethodOf(m.kind, m.label_, m.projectRoot, m.locked, m.err, Meanings(m.slots), m.presence.declared)
  {
  }

  lemma MethodMerges(low: Method, high: Method, ls: Fields, hs: Fields)
    requires low == MethodOf(low.kind, low.label_, low.projectRoot, low.locked, low.err, ls, low.declared)
    requires high == MethodOf(high.kind, high.label_, high.projectRoot, high.locked, high.err, hs, high.declared)
    ensures var atomic := high.declared * Atomic();
            var slots := MergedSlots(ls, hs, atomic, high.Guarded(), MergeConfig(low.config, high.config));
            MethodOf(high.kind, high.label_, high.projectRoot, high.locked, high.err, slots,
                     low.declared + atomic + if high.Guarded() then {"When"} else {})
            == MergeMethod(low, high)
  {
    hide Overlay, MergeConfig, Atomic, MergedSlots;
    MergedSlotsMean(ls, hs, high.declared * Atomic(), high.Guarded(), MergeConfig(low.config, high.config));
  }

  // ----- method lists -----

  /** The objects a set of candidates consists of. */
  ghost function Owned(methods: set<MethodCandidate>): set<object>
    reads methods
  {
    set m, o | m in methods && o in m.Footprint() :: o
  }

  ghost predicate AllValid(methods: seq<MethodCandidate>)
    reads methods, Owned(Elements(methods))
  {
    forall m :: m in methods ==> assert m in Elements(methods) && m.Footprint() <= Owned(Elements(methods)); m.Valid()
  }

  ghost function Values(methods: seq<MethodCandidate>): (values: seq<Method>)
    requires AllValid(methods)
    reads methods, Owned(Elements(methods))
    ensures |values| == |methods|
  {
    seq(|methods|, i requires 0 <= i < |methods| && AllValid(methods) reads methods, Owned(Elements(methods)) =>
      assert methods[i] in Elements(methods) && methods[i].Footprint() <= Owned(Elements(methods)); methods[i].Value())
  }

  /** An index of candidates and the values they stand for. */
  ghost predicate Holds(byKey: map<string, MethodCandidate>, values: map<string, Method>)
    reads byKey.Values, Owned(byKey.Values)
  {
    && byKey.Keys == values.Keys
    && forall k :: k in byKey ==>
         assert byKey[k] in byKey.Values && byKey[k].Footprint() <= Owned(byKey.Values);
         byKey[k].Valid() && byKey[k].Value() == values[k]
  }

  method CloneMethods(methods: seq<MethodCandidate>) returns (clones: seq<MethodCandidate>)
    requires AllValid(methods)
    ensures AllValid(clones) && forall c :: c in clones ==> fresh(c.Footprint())
    ensures Values(clones) == old(Values(methods))
  {
    hide MethodCandidate.Value, MethodCandidate.Valid;
    ghost var values := Values(methods);
    clones := [];
    for i := 0 to |methods|
      invariant |clones| == i
      invariant forall j :: 0 <= j < i ==>
                  clones[j].Valid() && fresh(clones[j].Footprint()) && clones[j].Value() == values[j]
      invariant AllValid(methods) && Values(methods) == values
    {
      var clone := CloneMethod(methods[i]);
      clones := clones + [clone];
    }
  }

  lemma HoldsMore(byKey: map<string, MethodCandidate>, values: map<string, Method>, key: string, m: MethodCandidate)
    requires Holds(byKey, values) && m.Valid()
    ensures Holds(byKey[key := m], values[key := m.Value()])
  {
  }

  /** What stands under a key once the upper candidate is absorbed: a merge, or a copy. */
  method Absorbed(byKey: map<string, MethodCandidate>, key: string, m: MethodCandidate,
                  ghost values: map<string, Method>)
      returns (both: MethodCandidate)
    requires Holds(byKey, values) && m.Valid()
    ensures both.Valid() && fresh(both.Footprint()) && Holds(byKey, values)
    ensures both.Value() == if key in values then MergeMethod(values[key], old(m.Value())) else old(m.Value())
  {
    hide MergeMethod;
    if key in byKey {
      both := MergeMethodConfigs(byKey[key], m);
    } else {
      both := CloneMethod(m);
    }
  }

  method AbsorbMethod(byKey: map<string, MethodCandidate>, order: seq<string>, m: MethodCandidate,
                      ghost values: map<string, Method>)
    returns (next: map<string, MethodCandidate>, queue: seq<string>, ghost after: map<string, Method>)
    requires Elements(order) == byKey.Keys == values.Keys && Holds(byKey, values) && m.Valid()
    ensures (after, queue) == AbsorbOne(values, order, old(m.Value()))
    ensures Holds(next, after)
    ensures forall k :: k in next ==> fresh(next[k].Footprint()) || (k in byKey && next[k] == byKey[k])
  {
    hide MergeMethod, Holds, MethodCandidate.Valid, MethodCandidate.Value;
    ghost var value := m.Value();
    DeclaredOf(m);
    var key := m.kind + "\0" + m.label_;
    var both := Absorbed(byKey, key, m, values);
    HoldsMore(byKey, values, key, both);
    next, after := byKey[key := both], values[key := both.Value()];
    queue := if key in byKey then order else order + [key];
  }

  method IndexMethods(methods: seq<MethodCandidate>)
      returns (byKey: map<string, MethodCandidate>, order: seq<string>, ghost values: map<string, Method>)
    requires AllValid(methods)
    ensures values == Index(old(Values(methods))) && order == Keys(old(Values(methods))) && Holds(byKey, values)
    ensures forall k :: k in byKey ==> byKey[k] in methods
  {
    hide Index, Keys, Holds, MethodOf, AllValid, Values;
    ghost var vals := Values(methods);
    byKey, order, values := map[], [], map[];
    assert map[] + Index(vals) == Index(vals) && vals[0..] == vals;
    KeysAt(vals, 0);
    NothingHeld();
    for i := 0 to |methods|
      invariant order == Keys(vals)[..i] && Holds(byKey, values) && |Keys(vals)| == |methods| == |vals|
      invariant forall k :: k in byKey ==> byKey[k] in methods
      invariant values + Index(vals[i..]) == Index(vals)
      invariant AllValid(methods) && Values(methods) == vals
    {
      ValueAt(methods, i);
      KeyOf(methods[i]);
      KeysAt(vals, i);
      var key := methods[i].kind + "\0" + methods[i].label_;
      assert vals[i..][1..] == vals[i + 1..];
      IndexStep(values, vals[i..]);
      HoldsMore(byKey, values, key, methods[i]);
      byKey, order, values := byKey[key := methods[i]], order + [key], values[key := vals[i]];
    }
    IndexStep(values, []);
    assert vals[|methods|..] == [] && Keys(vals)[..|methods|] == Keys(vals);
  }

  lemma KeysAt(values: seq<Method>, i: nat)
    ensures |Keys(values)| == |values| && (i < |values| ==> Keys(values)[i] == values[i].Key())
  {
  }

  lemma NothingHeld()
    ensures Holds(map[], map[])
  {
  }

  lemma ValueAt(methods: seq<MethodCandidate>, i: nat)
    requires AllValid(methods) && i < |methods|
    ensures methods[i].Valid() && i < |Values(methods)| == |methods| && Values(methods)[i] == methods[i].Value()
  {
  }

  lemma KeyOf(m: MethodCandidate)
    requires m.Valid()
    ensures m.Value().Key() == m.kind + "\0" + m.label_
  {
  }

  lemma IndexStep(a: map<string, Method>, methods: seq<Method>)
    ensures methods == [] ==> a + Index(methods) == a
    ensures methods != [] ==> a + Index(methods) == a[methods[0].Key() := methods[0]] + Index(methods[1..])
  {
  }

  /** An index of the lower candidates and an order of keys, into which the upper ones go one by one. A lower
      candidate that no upper one matches is passed on as it is, not copied. */
  method MergeMethodSlices(lower: seq<MethodCandidate>, upper: seq<MethodCandidate>)
      returns (merged: seq<MethodCandidate>)
    requires AllValid(lower) && AllValid(upper)
    ensures AllValid(merged) && forall m :: m in merged ==> fresh(m.Footprint()) || m in lower
    ensures Values(merged) == MergeMethods(old(Values(lower)), old(Values(upper)))
  {
    hide Index, Keys, Holds, AbsorbOne, Absorb, MethodOf, AllValid, Values;
    ghost var high := Values(upper);
    var byKey, order;
    ghost var values;
    byKey, order, values := IndexBeside(lower, upper);
    ghost var start, first := values, order;
    HoldsKeys(byKey, values);
    for i := 0 to |upper|
      invariant Elements(order) == byKey.Keys == values.Keys && Holds(byKey, values)
      invariant forall k :: k in byKey ==> fresh(byKey[k].Footprint()) || byKey[k] in lower
      invariant Absorb(values, order, high[i..]) == Absorb(start, first, high)
      invariant AllValid(upper) && Values(upper) == high
    {
      AbsorbSplits(values, order, high[i..]);
      assert high[i..][1..] == high[i + 1..];
      byKey, order, values := AbsorbAt(byKey, order, upper, i, values, high);
      HoldsKeys(byKey, values);
    }
    AbsorbSplits(values, order, []);
    assert high[|upper|..] == [];
    merged := InIndexOrder(byKey, order, values);
    forall m | m in merged ensures fresh(m.Footprint()) || m in lower { var k :| k in byKey && byKey[k] == m; }
  }

  method IndexBeside(lower: seq<MethodCandidate>, upper: seq<MethodCandidate>)
      returns (byKey: map<string, MethodCandidate>, order: seq<string>, ghost values: map<string, Method>)
    requires AllValid(lower) && AllValid(upper)
    ensures values == Index(old(Values(lower))) && order == Keys(old(Values(lower))) && Holds(byKey, values)
    ensures forall k :: k in byKey ==> byKey[k] in lower
    ensures AllValid(upper) && Values(upper) == old(Values(upper))
  {
    byKey, order, values := IndexMethods(lower);
  }

  method AbsorbAt(byKey: map<string, MethodCandidate>, order: seq<string>, upper: seq<MethodCandidate>, i: nat,
                  ghost values: map<string, Method>, ghost high: seq<Method>)
    returns (next: map<string, MethodCandidate>, queue: seq<string>, ghost after: map<string, Method>)
    requires Elements(order) == byKey.Keys == values.Keys && Holds(byKey, values)
    requires AllValid(upper) && Values(upper) == high && i < |upper|
    ensures i < |high| && (after, queue) == AbsorbOne(values, order, high[i])
    ensures Holds(next, after) && AllValid(upper) && Values(upper) == high
    ensures forall k :: k in next ==> fresh(next[k].Footprint()) || (k in byKey && next[k] == byKey[k])
  {
    hide Holds, AbsorbOne;
    next, queue, after := AbsorbMethod(byKey, order, upper[i], values);
  }

  lemma HoldsKeys(byKey: map<string, MethodCandidate>, values: map<string, Method>)
    requires Holds(byKey, values)
    ensures byKey.Keys == values.Keys
  {
  }

  lemma AbsorbSplits(byKey: map<string, Method>, order: seq<string>, upper: seq<Method>)
    requires Elements(order) == byKey.Keys
    ensures Absorb(byKey, order, upper)
            == if upper == [] then (byKey, order)
               else var (next, queue) := AbsorbOne(byKey, order, upper[0]); Absorb(next, queue, upper[1..])
  {
  }

  method InIndexOrder(byKey: map<string, MethodCandidate>, order: seq<string>, ghost values: map<string, Method>)
      returns (methods: seq<MethodCandidate>)
    requires Elements(order) == byKey.Keys == values.Keys && Holds(byKey, values)
    ensures forall m :: m in methods ==> m in byKey.Values
    ensures AllValid(methods) && Values(methods) == InOrder(values, order)
  {
    methods := [];
    for i := 0 to |order|
      invariant |methods| == i
      invariant forall j :: 0 <= j < i ==> order[j] in byKey && methods[j] == byKey[order[j]]
    {
      assert order[i] in Elements(order);
      methods := methods + [byKey[order[i]]];
    }
  }

  // ----- tools -----

  /** A slice of strings that grows in place. */
  class Words {
    var items: seq<string>

    constructor (items: seq<string>)
      ensures this.items == items
    {
      this.items := items;
    }

    method Append(item: string)
      modifies this
      ensures items == old(items) + [item]
    {
      items := items + [item];
    }
  }

  /** A tool. `slots` are the fields that hold hooks, lists and plain values; an absent one is the zero value. */
  class ToolConfig {
    var slots: map<string, Val>
    var tags: Words
    var requiresWhen: Node
    var methods: seq<MethodCandidate>
    var presence: Presence
    ghost var nodes: set<Node>

    ghost predicate OwnValid()
      reads this, nodes
    {
      && NodesOf(slots.Values) <= nodes && Feet(slots.Values) <= nodes && AllGood(slots)
      && requiresWhen in nodes && requiresWhen.repr <= nodes && requiresWhen.table && requiresWhen.Valid()
    }

    ghost predicate Valid()
      reads this, nodes, methods, Owned(Elements(methods))
    {
      OwnValid() && AllValid(methods)
    }

    /** The objects of the tool itself. */
    ghost function Own(): set<object>
      reads this
    {
      {this, tags, presence} + nodes
    }

    ghost function Footprint(): set<object>
      reads this, methods
    {
      Own() + Owned(Elements(methods))
    }

    ghost function OwnValue(): Tool
      requires OwnValid()
      reads this, tags, presence, nodes
    {
      Tool(Meanings(slots), tags.items, requiresWhen.Entries(), [], presence.declared)
    }

    ghost function Value(): Tool
      requires Valid()
      reads this, tags, presence, nodes, methods, Owned(Elements(methods))
    {
      OwnValue().(methods := Values(methods))
    }

    constructor (slots: map<string, Val>, tags: Words, requiresWhen: Node, presence: Presence)
      requires AllGood(slots) && requiresWhen.Valid() && requiresWhen.table
      ensures OwnValid() && methods == []
              && Own() == {this, tags, presence} + old(Feet(slots.Values)) + old(requiresWhen.repr)
      ensures OwnValue()
              == Tool(old(Meanings(slots)), old(tags.items), old(requiresWhen.Entries()), [], old(presence.declared))
    {
      this.slots, this.tags, this.requiresWhen, this.methods, this.presence := slots, tags, requiresWhen, [], presence;
      this.nodes := Feet(slots.Values) + requiresWhen.repr;
      new;
      RootsInside(slots);
    }
  }

  lemma OwnParts(tool: ToolConfig)
    requires tool.OwnValid()
    ensures AllGood(tool.slots) && tool.requiresWhen.Valid() && tool.requiresWhen.table
    ensures tool.OwnValue()
            == Tool(Meanings(tool.slots), tool.tags.items, tool.requiresWhen.Entries(), [], tool.presence.declared)
  {
  }

  /** A copy of the tool, without its methods. */
  method CloneOwn(tool: ToolConfig) returns (clone: ToolConfig)
    requires tool.OwnValid()
    ensures clone.OwnValid() && fresh(clone.Own()) && clone.methods == []
    ensures clone.OwnValue() == old(tool.OwnValue())
  {
    hide ToolConfig.OwnValid, ToolConfig.OwnValue, AllGood, Meanings, Node.Valid, Node.Entries;
    var tags, presence := CloneMarks(tool);
    OwnParts(tool);
    var slots := CloneBeside(tool.slots, tool.requiresWhen);
    var requiresWhen := CloneTableBeside(tool.requiresWhen, slots);
    clone := new ToolConfig(slots, tags, requiresWhen, presence);
  }

  method CloneMarks(tool: ToolConfig) returns (tags: Words, presence: Presence)
    requires tool.OwnValid()
    ensures fresh(tags) && fresh(presence)
    ensures tags.items == old(tool.tags.items) && presence.declared == old(tool.presence.declared)
    ensures tool.OwnValid() && tool.OwnValue() == old(tool.OwnValue())
  {
    tags := new Words(tool.tags.items);
    presence := new Presence(tool.presence.declared);
  }

  method CloneBeside(slots: map<string, Val>, n: Node) returns (copies: map<string, Val>)
    requires AllGood(slots) && n.Valid()
    ensures AllGood(copies) && fresh(Feet(copies.Values)) && Meanings(copies) == old(Meanings(slots))
    ensures n.Valid() && n.Entries() == old(n.Entries())
  {
    copies := CloneFields(slots);
  }

  method CloneTableBeside(n: Node, slots: map<string, Val>) returns (clone: Node)
    requires AllGood(slots) && n.Valid() && n.table
    ensures clone.Valid() && clone.table && fresh(clone.repr) && clone.Entries() == old(n.Entries())
    ensures AllGood(slots) && Meanings(slots) == old(Meanings(slots)) && Feet(slots.Values) == old(Feet(slots.Values))
  {
    clone := n.CloneTable();
  }

  /** `unionStringSlice`: appends in place what has not been seen. */
  method UnionStringSlice(dst: Words, upper: Words)
    requires dst != upper
    modifies dst
    ensures dst.items == Union(old(dst.items), upper.items)
  {
    var seen := Elements(dst.items);
    for i := 0 to |upper.items|
      invariant upper.items == old(upper.items)
      invariant seen == Elements(dst.items)
      invariant Union(dst.items, upper.items[i..]) == Union(old(dst.items), upper.items)
    {
      assert upper.items[i..][1..] == upper.items[i + 1..];
      if upper.items[i] !in seen {
        assert Elements(dst.items + [upper.items[i]]) == Elements(dst.items) + {upper.items[i]};
        seen := seen + {upper.items[i]};
        dst.Append(upper.items[i]);
      }
    }
  }

  /** The tags of both layers, the lower ones first. */
  method MergeTags(lower: ToolConfig, upper: ToolConfig) returns (tags: Words)
    requires lower.OwnValid() && upper.OwnValid()
    ensures fresh(tags)
    ensures tags.items == old(if "Tags" in lower.presence.declared + upper.presence.declared
                              then Union(lower.tags.items, upper.tags.items) else lower.tags.items)
    ensures lower.OwnValid() && lower.OwnValue() == old(lower.OwnValue())
    ensures upper.OwnValid() && upper.OwnValue() == old(upper.OwnValue())
  {
    hide Union;
    tags := new Words(lower.tags.items);
    if "Tags" in lower.presence.declared || "Tags" in upper.presence.declared {
      UnionStringSlice(tags, upper.tags);
    }
  }

  /** The declared fields of the merged tool, marked in a copy of the lower ones. */
  method MergeDeclared(lower: ToolConfig, upper: ToolConfig) returns (presence: Presence)
    requires lower.OwnValid() && upper.OwnValid()
    ensures fresh(presence)
    ensures presence.declared
            == old(lower.presence.declared + upper.presence.declared * (Overwritten() + {"Tags", "RequiresWhen"}))
    ensures lower.OwnValid() && lower.OwnValue() == old(lower.OwnValue())
    ensures upper.OwnValid() && upper.OwnValue() == old(upper.OwnValue())
  {
    hide Overwritten;
    presence := new Presence(lower.presence.declared);
    MarkDeclared(presence, upper.presence);
  }

  method MarkDeclared(presence: Presence, upper: Presence)
    requires presence != upper
    modifies presence
    ensures presence.declared == old(presence.declared) + upper.declared * (Overwritten() + {"Tags", "RequiresWhen"})
  {
    hide Overwritten;
    presence.Mark(upper.declared * Overwritten());
    if "Tags" in upper.declared {
      presence.Mark({"Tags"});
    }
    if "RequiresWhen" in upper.declared {
      presence.Mark({"RequiresWhen"});
    }
  }

  method OverlayBeside(lower: map<string, Val>, upper: map<string, Val>, which: set<string>, a: Node, b: Node)
      returns (slots: map<string, Val>)
    requires AllGood(lower) && AllGood(upper) && a.Valid() && b.Valid()
    ensures AllGood(slots) && fresh(Feet(slots.Values))
    ensures Meanings(slots) == Overlay(old(Meanings(lower)), old(Meanings(upper)), which)
    ensures a.Valid() && a.Entries() == old(a.Entries()) && b.Valid() && b.Entries() == old(b.Entries())
  {
    hide Overlay;
    ghost var low, high := Meanings(lower), Meanings(upper);
    slots := CloneFields(lower);
    assert AllGood(upper) && Meanings(upper) == high && Meanings(slots) == low;
    slots := OverlayFields(slots, upper, which);
  }

  /** The conditions of both layers in a new table, or a copy of the lower ones. */
  method MergeConditions(lower: Node, upper: Node, declared: bool, slots: map<string, Val>) returns (conditions: Node)
    requires lower.Valid() && lower.table && upper.Valid() && upper.table && AllGood(slots)
    ensures conditions.Valid() && conditions.table && fresh(conditions.repr)
    ensures conditions.Entries()
            == if declared then old(lower.Entries()) + old(upper.Entries()) else old(lower.Entries())
    ensures AllGood(slots) && Meanings(slots) == old(Meanings(slots)) && Feet(slots.Values) == old(Feet(slots.Values))
  {
    if declared {
      conditions := MergeTables(lower, upper);
    } else {
      conditions := lower.CloneTable();
    }
  }

  /** The upper tool over the lower one, but for their methods. */
  method MergeOwn(lower: ToolConfig, upper: ToolConfig) returns (result: ToolConfig)
    requires lower.OwnValid() && upper.OwnValid()
    ensures result.OwnValid() && fresh(result.Own()) && result.methods == []
    ensures result.OwnValue() == MergeTool(old(lower.OwnValue()), old(upper.OwnValue()))
  {
    hide *;
    OwnParts(lower);
    OwnParts(upper);
    MergeOwnIs(lower.OwnValue(), upper.OwnValue());
    var tags := MergeTags(lower, upper);
    OwnParts(lower);
    OwnParts(upper);
    var presence := MergeDeclared(lower, upper);
    OwnParts(lower);
    OwnParts(upper);
    var declared := upper.presence.declared;
    var slots := OverlayBeside(lower.slots, upper.slots, declared * Overwritten(), lower.requiresWhen,
                               upper.requiresWhen);
    var conditions := MergeConditions(lower.requiresWhen, upper.requiresWhen, "RequiresWhen" in declared, slots);
    result := new ToolConfig(slots, tags, conditions, presence);
  }

  lemma MergeOwnIs(low: Tool, high: Tool)
    requires low.methods == [] && high.methods == []
    ensures MergeTool(low, high)
            == Tool(Overlay(low.fields, high.fields, high.declared * Overwritten()),
                    if "Tags" in low.declared + high.declared then Union(low.tags, high.tags) else low.tags,
                    if "RequiresWhen" in high.declared then low.requiresWhen + high.requiresWhen else low.requiresWhen,
                    [], low.declared + high.declared * (Overwritten() + {"Tags", "RequiresWhen"}))
  {
    hide Overlay, Union, Overwritten;
    assert MergeMethods([], []) == [];
  }

  /** The methods are assigned last. */
  method SetMethods(tool: ToolConfig, methods: seq<MethodCandidate>)
    requires tool.OwnValid() && AllValid(methods)
    modifies tool
    ensures tool.Valid() && tool.Own() == old(tool.Own()) && tool.methods == methods
    ensures tool.Value() == old(tool.OwnValue()).(methods := old(Values(methods)))
  {
    tool.methods := methods;
  }

  method CloneOwnBeside(tool: ToolConfig) returns (clone: ToolConfig)
    requires tool.Valid()
    ensures clone.OwnValid() && fresh(clone.Own()) && clone.OwnValue() == old(tool.OwnValue())
    ensures AllValid(tool.methods) && Values(tool.methods) == old(Values(tool.methods))
  {
    clone := CloneOwn(tool);
  }

  method CloneMethodsBeside(methods: seq<MethodCandidate>, tool: ToolConfig) returns (clones: seq<MethodCandidate>)
    requires AllValid(methods) && tool.OwnValid()
    ensures AllValid(clones) && forall c :: c in clones ==> fresh(c.Footprint())
    ensures Values(clones) == old(Values(methods))
    ensures tool.OwnValid() && tool.OwnValue() == old(tool.OwnValue()) && tool.Own() == old(tool.Own())
  {
    clones := CloneMethods(methods);
  }

  method CloneTool(tool: ToolConfig) returns (clone: ToolConfig)
    requires tool.Valid()
    ensures clone.Valid() && fresh(clone.Own()) && forall m :: m in clone.methods ==> fresh(m.Footprint())
    ensures clone.Value() == old(tool.Value())
  {
    hide AllValid, Values, ToolConfig.OwnValid, ToolConfig.OwnValue;
    ghost var own := tool.Own();
    clone := CloneOwnBeside(tool);
    var methods := CloneMethodsBeside(tool.methods, clone);
    SetMethods(clone, methods);
  }

  method MergeOwnBeside(lower: ToolConfig, upper: ToolConfig) returns (result: ToolConfig)
    requires lower.Valid() && upper.Valid()
    ensures result.OwnValid() && fresh(result.Own())
    ensures result.OwnValue() == MergeTool(old(lower.OwnValue()), old(upper.OwnValue()))
    ensures AllValid(lower.methods) && Values(lower.methods) == old(Values(lower.methods))
    ensures AllValid(upper.methods) && Values(upper.methods) == old(Values(upper.methods))
  {
    hide MergeTool;
    result := MergeOwn(lower, upper);
  }

  method MergeSlicesBeside(lower: seq<MethodCandidate>, upper: seq<MethodCandidate>, tool: ToolConfig)
      returns (merged: seq<MethodCandidate>)
    requires AllValid(lower) && AllValid(upper) && tool.OwnValid()
    ensures AllValid(merged) && forall m :: m in merged ==> fresh(m.Footprint()) || m in lower
    ensures Values(merged) == MergeMethods(old(Values(lower)), old(Values(upper)))
    ensures tool.OwnValid() && tool.OwnValue() == old(tool.OwnValue()) && tool.Own() == old(tool.Own())
  {
    hide MergeMethods;
    merged := MergeMethodSlices(lower, upper);
  }

  /** A new tool. A lower method that the upper layer does not touch is passed on as it is. */
  method MergeToolConfigs(lower: ToolConfig, upper: ToolConfig) returns (result: ToolConfig)
    requires lower.Valid() && upper.Valid()
    ensures result.Valid() && fresh(result.Own())
    ensures forall m :: m in result.methods ==> fresh(m.Footprint()) || m in lower.methods
    ensures result.Value() == MergeTool(old(lower.Value()), old(upper.Value()))
  {
    hide AllValid, Values, ToolConfig.OwnValid, ToolConfig.OwnValue, MergeTool, MergeMethods;
    ghost var low, high := lower.Value(), upper.Value();
    OwnParts(lower);
    OwnParts(upper);
    assert low.(methods := []) == lower.OwnValue() && high.(methods := []) == upper.OwnValue();
    MergeOwnAndMethods(low, high);
    result := MergeOwnBeside(lower, upper);
    var methods := MergeSlicesBeside(lower.methods, upper.methods, result);
    SetMethods(result, methods);
  }

  lemma MergeOwnAndMethods(low: Tool, high: Tool)
    ensures MergeTool(low, high)
            == MergeTool(low.(methods := []), high.(methods := [])).(methods := MergeMethods(low.methods, high.methods))
  {
    hide MergeMethods, Overlay, Union, Overwritten;
  }

  // ----- whole layers -----

  ghost function MethodObjects(tools: map<string, ToolConfig>): set<MethodCandidate>
    reads tools.Values
  {
    set t, m | t in tools.Values && m in t.methods :: m
  }

  /** The objects a map of tools consists of. */
  ghost function ToolsOwned(tools: map<string, ToolConfig>): set<object>
    reads tools.Values, MethodObjects(tools)
  {
    (set t, o | t in tools.Values && o in t.Own() :: o) + Owned(MethodObjects(tools))
  }

  ghost predicate ToolsValid(tools: map<string, ToolConfig>)
    reads tools.Values, MethodObjects(tools), ToolsOwned(tools)
  {
    forall n :: n in tools ==>
      assert tools[n] in tools.Values && tools[n].Own() <= ToolsOwned(tools);
      assert Elements(tools[n].methods) <= MethodObjects(tools);
      assert Owned(Elements(tools[n].methods)) <= Owned(MethodObjects(tools));
      tools[n].Valid()
  }

  ghost function ToolValues(tools: map<string, ToolConfig>): map<string, Tool>
    requires ToolsValid(tools)
    reads tools.Values, MethodObjects(tools), ToolsOwned(tools)
  {
    map n | n in tools ::
      assert tools[n] in tools.Values && tools[n].Own() <= ToolsOwned(tools);
      assert Elements(tools[n].methods) <= MethodObjects(tools);
      assert Owned(Elements(tools[n].methods)) <= Owned(MethodObjects(tools));
      tools[n].Value()
  }

  lemma ToolSet(tools: map<string, ToolConfig>, name: string, tool: ToolConfig)
    requires ToolsValid(tools) && tool.Valid()
    ensures var after := tools[name := tool];
            && ToolsValid(after) && ToolValues(after) == ToolValues(tools)[name := tool.Value()]
            && ToolsOwned(after) <= ToolsOwned(tools) + tool.Footprint()
  {
    var after := tools[name := tool];
    forall t | t in after.Values ensures t == tool || t in tools.Values {
      var k :| k in after && after[k] == t;
    }
    forall o | o in Owned(MethodObjects(after)) ensures o in ToolsOwned(tools) + tool.Footprint() {
      var m :| m in MethodObjects(after) && o in m.Footprint();
      var t :| t in after.Values && m in t.methods;
      if t == tool { assert m in Elements(tool.methods); } else { assert m in MethodObjects(tools); }
    }
  }

  lemma ToolAt(tools: map<string, ToolConfig>, name: string)
    requires ToolsValid(tools) && name in tools
    ensures tools[name].Valid() && ToolValues(tools)[name] == tools[name].Value()
            && ToolValues(tools).Keys == tools.Keys
    ensures tools[name].Footprint() <= ToolsOwned(tools)
  {
    assert tools[name] in tools.Values;
    assert Elements(tools[name].methods) <= MethodObjects(tools);
    assert Owned(Elements(tools[name].methods)) <= Owned(MethodObjects(tools));
  }

  /** The tool of a layer under a name, over what stands there already. */
  method MergeOneTool(next: map<string, ToolConfig>, layer: map<string, ToolConfig>, name: string)
      returns (tool: ToolConfig)
    requires ToolsValid(next) && ToolsValid(layer) && name in layer
    ensures tool.Valid() && forall o :: o in tool.Footprint() ==> fresh(o) || o in old(ToolsOwned(next))
    ensures tool.Value() == MergedTool(old(ToolValues(next)), old(ToolValues(layer)), name)
  {
    hide ToolsValid, ToolsOwned, MergeTool, ToolConfig.Valid, ToolConfig.Value;
    ToolAt(layer, name);
    if name in next {
      ToolAt(next, name);
      ghost var below := next[name].Footprint();
      tool := MergeToolConfigs(next[name], layer[name]);
    } else {
      tool := CloneTool(layer[name]);
    }
  }

  function MergedTool(merged: map<string, Tool>, layer: map<string, Tool>, name: string): Tool {
    if name !in layer then Tool(map[], [], map[], [], {})
    else if name in merged then MergeTool(merged[name], layer[name])
    else layer[name]
  }

  method MergeOneBeside(next: map<string, ToolConfig>, layer: map<string, ToolConfig>, name: string)
      returns (tool: ToolConfig)
    requires ToolsValid(next) && ToolsValid(layer) && name in layer
    ensures tool.Valid() && forall o :: o in tool.Footprint() ==> fresh(o) || o in old(ToolsOwned(next))
    ensures tool.Value() == MergedTool(old(ToolValues(next)), old(ToolValues(layer)), name)
    ensures ToolsValid(next) && ToolValues(next) == old(ToolValues(next)) && ToolsOwned(next) == old(ToolsOwned(next))
    ensures ToolsValid(layer) && ToolValues(layer) == old(ToolValues(layer))
  {
    hide MergedTool, ToolsValid, ToolValues, ToolConfig.Valid, ToolConfig.Value;
    tool := MergeOneTool(next, layer, name);
    ToolsKept(next);
    ToolsKept(layer);
  }

  /** Tools whose objects nobody wrote stand for what they stood for. */
  twostate lemma ToolsKept(tools: map<string, ToolConfig>)
    requires old(ToolsValid(tools)) && unchanged(old(ToolsOwned(tools)))
    ensures ToolsValid(tools) && ToolValues(tools) == old(ToolValues(tools))
            && ToolsOwned(tools) == old(ToolsOwned(tools))
  {
    hide ToolsValid, ToolValues, ToolsOwned, Owned;
    OwnedKept(tools);
  }

  twostate lemma OwnedKept(tools: map<string, ToolConfig>)
    requires unchanged(old(ToolsOwned(tools)))
    ensures MethodObjects(tools) == old(MethodObjects(tools)) && ToolsOwned(tools) == old(ToolsOwned(tools))
    ensures tools.Values <= old(ToolsOwned(tools)) && old(MethodObjects(tools)) <= old(ToolsOwned(tools))
  {
    forall t | t in tools.Values ensures t in old(ToolsOwned(tools)) { assert t in old(t.Own()); }
    forall m | m in old(MethodObjects(tools)) ensures m in old(ToolsOwned(tools)) { assert m in old(m.Footprint()); }
    assert MethodObjects(tools) == old(MethodObjects(tools));
    assert ToolsOwned(tools) == old(ToolsOwned(tools));
  }

  lemma MergeToolsStep(merged: map<string, Tool>, layer: map<string, Tool>, pending: set<string>, name: string)
    requires pending <= layer.Keys
    ensures MergeTools(merged, layer - layer.Keys) == merged
    ensures name in pending ==>
              MergeTools(merged, layer - pending)[name := MergedTool(MergeTools(merged, layer - pending), layer, name)]
              == MergeTools(merged, layer - (pending - {name}))
  {
    hide MergeTool;
  }

  /** One layer's tools over the tools merged so far. Nothing of the layer is kept. */
  method MergeLayerTools(merged: map<string, ToolConfig>, layer: map<string, ToolConfig>)
      returns (next: map<string, ToolConfig>)
    requires ToolsValid(merged) && ToolsValid(layer)
    ensures ToolsValid(next) && forall o :: o in ToolsOwned(next) ==> fresh(o) || o in old(ToolsOwned(merged))
    ensures ToolValues(next) == MergeTools(old(ToolValues(merged)), old(ToolValues(layer)))
  {
    hide MergeTools, MergedTool, ToolsValid, ToolValues, ToolsOwned, ToolConfig.Valid, ToolConfig.Value;
    next := merged;
    ghost var low, high, owned := ToolValues(merged), ToolValues(layer), ToolsOwned(merged);
    NamesOf(layer);
    var pending := layer.Keys;
    MergeToolsStep(low, high, pending, "");
    while pending != {}
      invariant pending <= layer.Keys == high.Keys
      invariant ToolsValid(layer) && ToolValues(layer) == high
      invariant ToolsValid(next) && forall o :: o in ToolsOwned(next) ==> fresh(o) || o in owned
      invariant ToolValues(next) == MergeTools(low, high - pending)
    {
      var name :| name in pending;
      MergeToolsStep(low, high, pending, name);
      var tool := MergeOneBeside(next, layer, name);
      ToolSet(next, name, tool);
      next := next[name := tool];
      pending := pending - {name};
    }
    assert high - {} == high;
  }

  lemma NamesOf(tools: map<string, ToolConfig>)
    requires ToolsValid(tools)
    ensures ToolValues(tools).Keys == tools.Keys
  {
  }

  class SchemaLayer {
    var version: int
    var defaults: map<string, Val>
    var presence: Presence
    var tools: map<string, ToolConfig>
    var allowNewTools: bool
    var projectRoot: string
    ghost var nodes: set<Node>

    ghost predicate Valid()
      reads this, nodes, tools.Values, MethodObjects(tools), ToolsOwned(tools)
    {
      && NodesOf(defaults.Values) <= nodes && Feet(defaults.Values) <= nodes && AllGood(defaults)
      && ToolsValid(tools)
    }

    /** Every object the layer consists of: the schema, its tools, their methods, and all below. */
    ghost function Footprint(): set<object>
      reads this, tools.Values, MethodObjects(tools)
    {
      {this, presence} + nodes + ToolsOwned(tools)
    }

    ghost function Value(): Schema
      requires Valid()
      reads this, presence, nodes, tools.Values, MethodObjects(tools), ToolsOwned(tools)
    {
      Schema(version, Meanings(defaults), presence.declared, ToolValues(tools), allowNewTools, projectRoot)
    }

    constructor (version: int, defaults: map<string, Val>, presence: Presence, tools: map<string, ToolConfig>,
                 allowNewTools: bool, projectRoot: string)
      requires AllGood(defaults) && ToolsValid(tools)
      ensures Valid() && Footprint() == {this, presence} + old(Feet(defaults.Values)) + old(ToolsOwned(tools))
      ensures Value() == Schema(version, old(Meanings(defaults)), old(presence.declared), old(ToolValues(tools)),
                                allowNewTools, projectRoot)
    {
      hide ToolsValid, ToolValues, Meanings;
      this.version, this.defaults, this.presence, this.tools := version, defaults, presence, tools;
      this.allowNewTools, this.projectRoot := allowNewTools, projectRoot;
      this.nodes := Feet(defaults.Values);
      new;
      RootsInside(defaults);
      ToolsKept(tools);
    }
  }

  /** A layer whose objects nobody wrote stands for what it stood for. */
  twostate lemma LayerKept(layer: SchemaLayer)
    requires old(layer.Valid()) && unchanged(old(layer.Footprint()))
    ensures layer.Valid() && layer.Value() == old(layer.Value()) && layer.Footprint() == old(layer.Footprint())
  {
    hide ToolsValid, ToolValues, ToolsOwned;
    ToolsKept(layer.tools);
  }

  twostate lemma FieldsKept(fields: map<string, Val>)
    requires old(AllGood(fields)) && unchanged(old(Feet(fields.Values)))
    ensures AllGood(fields) && Meanings(fields) == old(Meanings(fields))
            && Feet(fields.Values) == old(Feet(fields.Values))
  {
    forall n | n in NodesOf(fields.Values) ensures n in old(Feet(fields.Values)) {
      var v :| v in fields.Values && v == Ref(n);
      var k :| k in fields && fields[k] == v;
      assert old(Good(v));
    }
    assert Feet(fields.Values) == old(Feet(fields.Values));
  }

  // ----- the stack of layers -----

  /** The layers that are there, least specific first. */
  function Present(layers: seq<SchemaLayer?>): (present: seq<SchemaLayer>)
    ensures forall i :: 0 <= i < |present| ==> present[i] in layers
  {
    if layers == [] then []
    else
      var last := layers[|layers| - 1];
      Present(layers[..|layers| - 1]) + (if last == null then [] else [last])
  }

  lemma PresentMore(layers: seq<SchemaLayer?>, i: nat)
    ensures Present(layers[..0]) == []
    ensures i < |layers| ==>
              Present(layers[..i + 1]) == Present(layers[..i]) + (if layers[i] == null then [] else [layers[i]])
  {
    if i < |layers| { assert layers[..i + 1][..i] == layers[..i]; }
  }

  /** The last layer that is there: project metadata is its own. */
  function MostSpecific(layers: seq<SchemaLayer?>): (top: SchemaLayer?)
    ensures top == if Present(layers) == [] then null else Present(layers)[|Present(layers)| - 1]
  {
    if layers == [] then null
    else if layers[|layers| - 1] != null then layers[|layers| - 1]
    else MostSpecific(layers[..|layers| - 1])
  }

  lemma StackUnfolds(engine: Fields, layers: seq<Schema>)
    ensures layers == [] ==>
              Stack(layers) == map[] && StackDefaults(engine, layers) == engine && StackDeclared(layers) == {}
    ensures layers != [] ==>
              var below, top := layers[..|layers| - 1], layers[|layers| - 1];
              && Stack(layers) == MergeTools(Stack(below), top.tools)
              && StackDefaults(engine, layers)
                 == Overlay(StackDefaults(engine, below), top.defaults, top.defaultsDeclared * DEFAULT_FIELDS)
              && StackDeclared(layers) == StackDeclared(below) + top.defaultsDeclared
  {
  }

  lemma DeclaredDefaults(layer: SchemaLayer)
    requires layer.Valid()
    ensures layer.Value().defaultsDeclared == layer.presence.declared
  {
    hide ToolsValid, ToolValues, AllGood, Meanings;
  }

  method MarkLayer(presence: Presence, layer: SchemaLayer, defaults: map<string, Val>, tools: map<string, ToolConfig>)
    requires AllGood(defaults) && ToolsValid(tools) && layer.Valid()
    requires presence !in layer.Footprint() && presence !in ToolsOwned(tools)
    modifies presence
    ensures presence.declared == old(presence.declared) + old(layer.Value().defaultsDeclared)
    ensures AllGood(defaults) && Meanings(defaults) == old(Meanings(defaults))
            && Feet(defaults.Values) == old(Feet(defaults.Values))
    ensures ToolsValid(tools) && ToolValues(tools) == old(ToolValues(tools))
            && ToolsOwned(tools) == old(ToolsOwned(tools))
    ensures layer.Valid() && layer.Value() == old(layer.Value())
  {
    hide ToolsValid, ToolValues, AllGood, Meanings, SchemaLayer.Value;
    DeclaredDefaults(layer);
    presence.Mark(layer.presence.declared);
    FieldsKept(defaults);
    ToolsKept(tools);
    LayerKept(layer);
  }

  method OverlayDefaults(defaults: map<string, Val>, layer: SchemaLayer, tools: map<string, ToolConfig>)
      returns (next: map<string, Val>)
    requires AllGood(defaults) && ToolsValid(tools) && layer.Valid()
    ensures AllGood(next) && forall n :: n in Feet(next.Values) ==> fresh(n) || n in old(Feet(defaults.Values))
    ensures Meanings(next)
            == Overlay(old(Meanings(defaults)), old(layer.Value().defaults),
                       old(layer.Value().defaultsDeclared) * DEFAULT_FIELDS)
    ensures ToolsValid(tools) && ToolValues(tools) == old(ToolValues(tools))
            && ToolsOwned(tools) == old(ToolsOwned(tools))
    ensures layer.Valid() && layer.Value() == old(layer.Value())
  {
    hide Overlay, ToolsValid, ToolValues, AllGood, Meanings;
    next := OverlayFields(defaults, layer.defaults, layer.presence.declared * DEFAULT_FIELDS);
    ToolsKept(tools);
    LayerKept(layer);
  }

  method MergeToolsBeside(tools: map<string, ToolConfig>, layer: SchemaLayer, defaults: map<string, Val>)
      returns (next: map<string, ToolConfig>)
    requires AllGood(defaults) && ToolsValid(tools) && layer.Valid()
    ensures ToolsValid(next) && forall o :: o in ToolsOwned(next) ==> fresh(o) || o in old(ToolsOwned(tools))
    ensures ToolValues(next) == MergeTools(old(ToolValues(tools)), old(layer.Value().tools))
    ensures AllGood(defaults) && Meanings(defaults) == old(Meanings(defaults))
            && Feet(defaults.Values) == old(Feet(defaults.Values))
  {
    hide MergeTools, ToolsValid, ToolValues, AllGood, Meanings;
    next := MergeLayerTools(tools, layer.tools);
    FieldsKept(defaults);
  }

  /** One more layer over the defaults and tools merged so far. */
  method MergeLayerInto(defaults: map<string, Val>, presence: Presence, tools: map<string, ToolConfig>,
                        layer: SchemaLayer)
      returns (nextDefaults: map<string, Val>, nextTools: map<string, ToolConfig>)
    requires AllGood(defaults) && ToolsValid(tools) && layer.Valid()
    requires presence !in layer.Footprint() && presence !in ToolsOwned(tools)
    modifies presence
    ensures AllGood(nextDefaults)
            && forall n :: n in Feet(nextDefaults.Values) ==> fresh(n) || n in old(Feet(defaults.Values))
    ensures ToolsValid(nextTools) && forall o :: o in ToolsOwned(nextTools) ==> fresh(o) || o in old(ToolsOwned(tools))
    ensures Meanings(nextDefaults)
            == Overlay(old(Meanings(defaults)), old(layer.Value().defaults),
                       old(layer.Value().defaultsDeclared) * DEFAULT_FIELDS)
    ensures presence.declared == old(presence.declared) + old(layer.Value().defaultsDeclared)
    ensures ToolValues(nextTools) == MergeTools(old(ToolValues(tools)), old(layer.Value().tools))
  {
    hide *;
    MarkLayer(presence, layer, defaults, tools);
    nextDefaults := OverlayDefaults(defaults, layer, tools);
    nextTools := MergeToolsBeside(tools, layer, nextDefaults);
  }

  /** The layers one after the other, least specific first, over a copy of the engine's defaults. */
  method StackLayers(engine: map<string, Val>, layers: seq<SchemaLayer?>)
    returns (defaults: map<string, Val>, presence: Presence, tools: map<string, ToolConfig>, ghost values: seq<Schema>)
    requires AllGood(engine) && forall l :: l in Present(layers) ==> l.Valid()
    ensures fresh(presence) && AllGood(defaults) && fresh(Feet(defaults.Values)) && ToolsValid(tools)
            && fresh(ToolsOwned(tools))
    ensures |values| == |Present(layers)|
            && forall i :: 0 <= i < |values| ==> values[i] == old(Present(layers)[i].Value())
    ensures Meanings(defaults) == StackDefaults(old(Meanings(engine)), values)
    ensures presence.declared == StackDeclared(values) && ToolValues(tools) == Stack(values)
  {
    hide Present, Stacked, Owned, MethodObjects, ToolConfig.Own, SchemaLayer.Value, SchemaLayer.Valid, AllGood,
         Meanings, ToolsValid, ToolValues, Stack, StackDefaults, StackDeclared;
    ghost var start := Meanings(engine);
    defaults, presence, tools := StartStack(engine);
    values := [];
    PresentMore(layers, 0);
    for i := 0 to |layers|
      invariant fresh(presence) && fresh(Feet(defaults.Values)) && fresh(ToolsOwned(tools))
                && presence !in ToolsOwned(tools)
      invariant |values| == |Present(layers[..i])| && Present(layers[..i]) <= Present(layers)
      invariant forall j :: 0 <= j < |values| ==> values[j] == old(Present(layers)[j].Value())
      invariant Stacked(defaults, presence, tools, start, values)
    {
      PresentMore(layers, i);
      PresentPart(layers, i + 1);
      if layers[i] != null {
        var layer: SchemaLayer := layers[i];
        assert layer == Present(layers)[|values|];
        FootprintWasThere(layer);
        LayerKept(layer);
        defaults, tools, values := StackOne(defaults, presence, tools, layer, start, values);
      }
    }
    assert layers[..|layers|] == layers;
    StackedIs(defaults, presence, tools, start, values);
  }

  twostate lemma FootprintWasThere(layer: SchemaLayer)
    ensures forall o :: o in old(layer.Footprint()) ==> old(allocated(o))
  {
  }

  /** The defaults and the tools are those of the layers merged so far. */
  ghost predicate Stacked(defaults: map<string, Val>, presence: Presence, tools: map<string, ToolConfig>, start: Fields,
                          values: seq<Schema>)
    reads presence, NodesOf(defaults.Values), Feet(defaults.Values), tools.Values, MethodObjects(tools),
          ToolsOwned(tools)
  {
    && AllGood(defaults) && ToolsValid(tools)
    && Meanings(defaults) == StackDefaults(start, values)
    && presence.declared == StackDeclared(values) && ToolValues(tools) == Stack(values)
  }

  lemma StackedIs(defaults: map<string, Val>, presence: Presence, tools: map<string, ToolConfig>, start: Fields,
                  values: seq<Schema>)
    requires Stacked(defaults, presence, tools, start, values)
    ensures AllGood(defaults) && ToolsValid(tools)
    ensures Meanings(defaults) == StackDefaults(start, values)
    ensures presence.declared == StackDeclared(values) && ToolValues(tools) == Stack(values)
  {
  }

  method StackOne(defaults: map<string, Val>, presence: Presence, tools: map<string, ToolConfig>, layer: SchemaLayer,
                  ghost start: Fields, ghost values: seq<Schema>)
      returns (nextDefaults: map<string, Val>, nextTools: map<string, ToolConfig>, ghost more: seq<Schema>)
    requires Stacked(defaults, presence, tools, start, values) && layer.Valid()
    requires presence !in layer.Footprint() && presence !in ToolsOwned(tools)
    modifies presence
    ensures more == values + [old(layer.Value())] && Stacked(nextDefaults, presence, nextTools, start, more)
    ensures forall n :: n in Feet(nextDefaults.Values) ==> fresh(n) || n in old(Feet(defaults.Values))
    ensures forall o :: o in ToolsOwned(nextTools) ==> fresh(o) || o in old(ToolsOwned(tools))
    ensures presence !in ToolsOwned(nextTools)
  {
    hide Overlay, MergeTools, Stack, StackDefaults, StackDeclared, ToolsValid, ToolValues, AllGood, Meanings,
         ToolsOwned, Feet, SchemaLayer.Value, SchemaLayer.Valid;
    more := values + [layer.Value()];
    StackUnfolds(start, more);
    assert more[..|values|] == values;
    nextDefaults, nextTools := MergeLayerInto(defaults, presence, tools, layer);
  }

  lemma {:induction false} PresentPart(layers: seq<SchemaLayer?>, i: nat)
    requires i <= |layers|
    ensures Present(layers[..i]) <= Present(layers)
    decreases |layers|
  {
    if i == |layers| {
      assert layers[..i] == layers;
    } else {
      var n := |layers| - 1;
      PresentPart(layers[..n], i);
      assert layers[..n][..i] == layers[..i] && layers[..n + 1] == layers;
      PresentMore(layers, n);
    }
  }

  method StartStack(engine: map<string, Val>)
      returns (defaults: map<string, Val>, presence: Presence, tools: map<string, ToolConfig>)
    requires AllGood(engine)
    ensures fresh(presence) && presence.declared == {}
    ensures fresh(Feet(defaults.Values))
    ensures ToolsOwned(tools) == {} && Stacked(defaults, presence, tools, old(Meanings(engine)), [])
  {
    StackUnfolds(Meanings(engine), []);
    defaults := CloneFields(engine);
    label cloned:
    presence := new Presence({});
    FieldsKept@cloned(defaults);
    tools := map[];
  }

  // ----- the project root -----

  /** Every method of every tool gets the root, through the objects. */
  method BindMethodObjects(tools: map<string, ToolConfig>, root: string)
    modifies MethodObjects(tools)`projectRoot
    ensures forall m :: m in MethodObjects(tools) ==> m.projectRoot == root
  {
    var pending := tools.Keys;
    while pending != {}
      invariant pending <= tools.Keys
      invariant forall n, m :: n in tools && n !in pending && m in tools[n].methods ==> m.projectRoot == root
    {
      var name :| name in pending;
      assert tools[name] in tools.Values;
      assert forall m :: m in tools[name].methods ==> m in old(MethodObjects(tools));
      BindToolRoot(tools[name], root);
      pending := pending - {name};
    }
  }

  method BindToolRoot(tool: ToolConfig, root: string)
    modifies tool.methods`projectRoot
    ensures forall m :: m in tool.methods ==> m.projectRoot == root
  {
    for i := 0 to |tool.methods|
      invariant forall j :: 0 <= j < i ==> tool.methods[j].projectRoot == root
    {
      tool.methods[i].projectRoot := root;
    }
  }

  lemma StandsFor(tools: map<string, ToolConfig>, values: map<string, Tool>)
    requires forall n :: n in tools ==> tools[n].Valid()
    requires tools.Keys == values.Keys && forall n :: n in tools ==> tools[n].Value() == values[n]
    ensures ToolsValid(tools) && ToolValues(tools) == values
  {
    hide ToolConfig.Valid, ToolConfig.Value;
  }

  lemma BoundValues(methods: seq<MethodCandidate>, values: seq<Method>, root: string)
    requires |values| == |methods|
    requires forall i :: 0 <= i < |methods| ==>
               methods[i].Valid() && methods[i].Value() == values[i].(projectRoot := root)
    ensures AllValid(methods) && Values(methods) == BindMethods(values, root)
  {
    hide MethodCandidate.Valid, MethodCandidate.Value;
  }

  /** Each candidate with its value, from which the methods of every tool can be read off. */
  lemma Snapshot(tools: map<string, ToolConfig>) returns (values: map<MethodCandidate, Method>)
    requires ToolsValid(tools)
    ensures values.Keys == MethodObjects(tools)
    ensures forall m :: m in values ==> m.Valid() && m.Value() == values[m]
    ensures forall n :: n in tools ==> ToolRead(tools[n], ToolValues(tools)[n], values)
  {
    hide ToolsValid, ToolValues, ToolRead, MethodCandidate.Valid, MethodCandidate.Value, ToolConfig.Value,
         ToolConfig.Valid;
    forall m | m in MethodObjects(tools) ensures m.Valid() {
      var t :| t in tools.Values && m in t.methods;
      var n :| n in tools && tools[n] == t;
      ToolAt(tools, n);
      MethodIn(t, m);
    }
    values := map m | m in MethodObjects(tools) :: m.Value();
    NamesOf(tools);
    forall n | n in tools ensures ToolRead(tools[n], ToolValues(tools)[n], values) {
      assert tools[n] in tools.Values;
      ToolAt(tools, n);
      ReadOf(tools[n], values);
    }
  }

  lemma MethodIn(tool: ToolConfig, m: MethodCandidate)
    requires tool.Valid() && m in tool.methods
    ensures m.Valid()
  {
  }

  lemma ReadOf(tool: ToolConfig, values: map<MethodCandidate, Method>)
    requires tool.Valid() && forall m :: m in tool.methods ==> m in values && m.Valid() && m.Value() == values[m]
    ensures ToolRead(tool, tool.Value(), values)
  {
    hide MethodCandidate.Valid, MethodCandidate.Value;
    forall i | 0 <= i < |tool.methods| ensures Values(tool.methods)[i] == values[tool.methods[i]] {
      ValueAt(tool.methods, i);
      assert tool.methods[i] in tool.methods;
    }
  }

  /** The value of a tool, read off the values of its methods. */
  ghost predicate ToolRead(tool: ToolConfig, value: Tool, values: map<MethodCandidate, Method>)
    reads tool, tool.tags, tool.presence, tool.nodes
  {
    && tool.OwnValid() && tool.OwnValue() == value.(methods := [])
    && |value.methods| == |tool.methods|
    && forall i :: 0 <= i < |tool.methods| ==> tool.methods[i] in values && values[tool.methods[i]] == value.methods[i]
  }

  lemma BoundTool(tool: ToolConfig, value: Tool, values: map<MethodCandidate, Method>, root: string)
    requires ToolRead(tool, value, values)
    requires forall m :: m in values ==> m.Valid() && m.Value() == values[m].(projectRoot := root)
    ensures tool.Valid() && tool.Value() == BindTool(value, root)
  {
    hide MethodCandidate.Valid, MethodCandidate.Value, ToolConfig.OwnValid, ToolConfig.OwnValue;
    BoundValues(tool.methods, value.methods, root);
  }

  method BindValues(tools: map<string, ToolConfig>, root: string, ghost values: map<MethodCandidate, Method>)
    requires values.Keys == MethodObjects(tools)
    requires forall m :: m in values ==> m.Valid() && m.Value() == values[m]
    modifies MethodObjects(tools)`projectRoot
    ensures forall m :: m in values ==> m.Valid() && m.Value() == values[m].(projectRoot := root)
  {
    BindMethodObjects(tools, root);
  }

  method BindBeside(tools: map<string, ToolConfig>, root: string, ghost values: map<MethodCandidate, Method>,
                    ghost tv: map<string, Tool>)
    requires values.Keys == MethodObjects(tools) && tv.Keys == tools.Keys
    requires forall m :: m in values ==> m.Valid() && m.Value() == values[m]
    requires forall n :: n in tools ==> ToolRead(tools[n], tv[n], values)
    modifies MethodObjects(tools)`projectRoot
    ensures forall m :: m in values ==> m.Valid() && m.Value() == values[m].(projectRoot := root)
    ensures forall n :: n in tools ==> ToolRead(tools[n], tv[n], values)
  {
    hide *;
    BindValues(tools, root, values);
  }

  method BindProjectRoot(tools: map<string, ToolConfig>, root: string)
    requires ToolsValid(tools)
    modifies MethodObjects(tools)`projectRoot
    ensures ToolsValid(tools) && ToolValues(tools) == Bind(old(ToolValues(tools)), root)
  {
    hide *;
    ghost var tv := ToolValues(tools);
    NamesOf(tools);
    ghost var values := Snapshot(tools);
    BindBeside(tools, root, values, tv);
    forall n | n in tools
      ensures tools[n].Valid() && tools[n].Value() == BindTool(tv[n], root)
    {
      BoundTool(tools[n], tv[n], values, root);
    }
    BindsAll(tv, root);
    StandsFor(tools, Bind(tv, root));
  }

  lemma BindsAll(values: map<string, Tool>, root: string)
    ensures Bind(values, root).Keys == values.Keys
            && forall n :: n in values ==> Bind(values, root)[n] == BindTool(values[n], root)
  {
  }

  // ----- the merge -----

  twostate lemma OwnedStays(tools: map<string, ToolConfig>)
    requires unchanged(tools.Values)
    requires forall m :: m in old(MethodObjects(tools)) ==> m.Footprint() == old(m.Footprint())
    ensures ToolsOwned(tools) == old(ToolsOwned(tools))
  {
    hide MethodCandidate.Footprint;
    assert MethodObjects(tools) == old(MethodObjects(tools));
    forall o | o in Owned(MethodObjects(tools)) ensures o in old(Owned(MethodObjects(tools))) {
      var m :| m in MethodObjects(tools) && o in m.Footprint();
      assert m in old(MethodObjects(tools)) && o in old(m.Footprint());
    }
    forall o | o in old(Owned(MethodObjects(tools))) ensures o in Owned(MethodObjects(tools)) {
      var m :| m in old(MethodObjects(tools)) && o in old(m.Footprint());
      assert m in MethodObjects(tools) && o in m.Footprint();
    }
    assert forall t :: t in tools.Values ==> t.Own() == old(t.Own());
  }

  method BindTools(tools: map<string, ToolConfig>, root: string)
    requires ToolsValid(tools)
    modifies MethodObjects(tools)`projectRoot
    ensures ToolsValid(tools) && ToolValues(tools) == Bind(old(ToolValues(tools)), root)
            && ToolsOwned(tools) == old(ToolsOwned(tools))
  {
    hide ToolsValid, ToolValues, Bind;
    BindProjectRoot(tools, root);
    OwnedStays(tools);
  }

  method BindOwned(tools: map<string, ToolConfig>, root: string, defaults: map<string, Val>, presence: Presence)
    requires ToolsValid(tools) && AllGood(defaults)
    modifies MethodObjects(tools)`projectRoot
    ensures ToolsValid(tools) && ToolValues(tools) == Bind(old(ToolValues(tools)), root)
            && ToolsOwned(tools) == old(ToolsOwned(tools))
    ensures AllGood(defaults) && Meanings(defaults) == old(Meanings(defaults))
            && Feet(defaults.Values) == old(Feet(defaults.Values))
    ensures presence.declared == old(presence.declared)
  {
    hide ToolsValid, ToolValues, ToolsOwned, AllGood, Meanings, Bind;
    BindTools(tools, root);
    FieldsKept(defaults);
  }

  /** The merged schema, bound to the root of the most specific layer. */
  method Assemble(top: SchemaLayer, defaults: map<string, Val>, presence: Presence, tools: map<string, ToolConfig>)
      returns (result: SchemaLayer)
    requires ToolsValid(tools) && AllGood(defaults)
    modifies MethodObjects(tools)`projectRoot
    ensures result.Valid()
    ensures result.Footprint() == {result, presence} + old(Feet(defaults.Values)) + old(ToolsOwned(tools))
            && fresh(result)
    ensures result.Value()
            == Schema(old(top.version), old(Meanings(defaults)), old(presence.declared),
                      Bind(old(ToolValues(tools)), old(top.projectRoot)), old(top.allowNewTools), old(top.projectRoot))
  {
    hide *;
    BindOwned(tools, top.projectRoot, defaults, presence);
    result := new SchemaLayer(top.version, defaults, presence, tools, top.allowNewTools, top.projectRoot);
  }

  /** Merges the layers into a schema that consists of new objects all the way down, and so shares none with any
      layer; every layer is as it was. */
  method MergeSchemaLayers(engine: map<string, Val>, layers: seq<SchemaLayer?>)
      returns (result: SchemaLayer, ghost values: seq<Schema>)
    requires AllGood(engine) && forall l :: l in Present(layers) ==> l.Valid()
    ensures result.Valid() && fresh(result.Footprint())
    ensures |values| == |Present(layers)|
            && forall i :: 0 <= i < |values| ==> values[i] == old(Present(layers)[i].Value())
    ensures result.Value() == MergeLayers(old(Meanings(engine)), values)
    ensures forall l :: l in Present(layers) ==>
              l.Valid() && l.Value() == old(l.Value()) && l.Footprint() !! result.Footprint()
  {
    hide Bind, Stack, StackDefaults, StackDeclared, Present, AllGood, Meanings, ToolsValid, ToolValues, ToolsOwned,
         Feet, SchemaLayer.Value, SchemaLayer.Valid, SchemaLayer.Footprint, NodesOf;
    ghost var start := Meanings(engine);
    var top := MostSpecific(layers);
    ghost var meta := TopOf(layers, top);
    var defaults, presence, tools;
    defaults, presence, tools, values := StackLayers(engine, layers);
    if top == null {
      StackUnfolds(start, values);
      result := new SchemaLayer(1, defaults, presence, tools, false, "");
    } else {
      assert values[|values| - 1] == meta;
      MethodsAreOwned(tools);
      result := Assemble(top, defaults, presence, tools);
    }
    forall l | l in Present(layers)
      ensures l.Valid() && l.Value() == old(l.Value()) && l.Footprint() !! result.Footprint()
    {
      FootprintWasThere(l);
      LayerKept(l);
    }
  }

  lemma TopOf(layers: seq<SchemaLayer?>, top: SchemaLayer?) returns (value: Schema)
    requires top == (if Present(layers) == [] then null else Present(layers)[|Present(layers)| - 1])
    requires forall l :: l in Present(layers) ==> l.Valid()
    ensures top != null ==>
              && value == Present(layers)[|Present(layers)| - 1].Value() && value.version == top.version
              && value.allowNewTools == top.allowNewTools && value.projectRoot == top.projectRoot
  {
    hide Present;
    if top != null {
      assert top in Present(layers);
      value := top.Value();
    } else {
      value := Schema(0, map[], {}, map[], false, "");
    }
  }

  lemma MethodsAreOwned(tools: map<string, ToolConfig>)
    ensures MethodObjects(tools) <= ToolsOwned(tools)
  {
    forall m | m in MethodObjects(tools) ensures m in Owned(MethodObjects(tools)) { assert m in m.Footprint(); }
  }
}
