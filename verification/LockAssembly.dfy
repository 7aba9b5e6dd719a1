/**
 Assembling the universal lock: fresh plans shadow the entries of the previous lock, entries of unchanged
 tools are retained, and the document covers exactly the install closure.
 */
module LockAssembly {
  import opened Basics
  import opened Strings

  type Name = string

  /** An artifact by everything that identifies it, and its checksum. */
  datatype Artifact = Artifact(shape: string, checksum: string) {
    predicate Pinned() { checksum != "" && checksum != "sha256:auto" }
  }

  datatype Entry = Entry(tool: Name, candidate: string, identity: string, artifacts: seq<Artifact>)

  /** A lock on disk. Only the current version carries a projection; `None` is one that does not decode. */
  datatype Lock = Lock(current: bool, projection: Option<seq<Entry>>, methodsHash: map<Name, string>,
                       sourceHash: map<string, string>)

  /** What is fixed: which candidate each tool resolves to, and which identities can be locked. */
  datatype World = World(selected: map<Name, Entry>, lockable: (string, seq<Artifact>) -> bool) {
    predicate Immutable(e: Entry) { lockable(e.identity, e.artifacts) }
  }

  /** A tool as far as locking looks: one without methods groups others and is never locked. */
  datatype Tool = Tool(methods: nat)

  datatype Error = Unreadable | NoCandidate(tool: Name) | NotImmutable(tool: Name) | Duplicate(tool: Name) | Uncovered

  datatype Result = Locked(entries: seq<Entry>) | Failed(error: Error)

  function Tools(entries: seq<Entry>): set<Name> { set e | e in entries :: e.tool }

  predicate Distinct(entries: seq<Entry>) {
    forall i, j :: 0 <= i < j < |entries| ==> entries[i].tool != entries[j].tool
  }

  predicate Ascending(entries: seq<Entry>) {
    forall i, j :: 0 <= i < j < |entries| ==> LexLess(entries[i].tool, entries[j].tool)
  }

  function EntryOf(entries: seq<Entry>, tool: Name): Option<Entry> {
    if entries == [] then None else if entries[0].tool == tool then Some(entries[0]) else EntryOf(entries[1..], tool)
  }

  lemma {:induction false} EntryOfIs(entries: seq<Entry>, tool: Name)
    ensures EntryOf(entries, tool).Some? <==> tool in Tools(entries)
    ensures EntryOf(entries, tool).Some? ==>
              EntryOf(entries, tool).value in entries && EntryOf(entries, tool).value.tool == tool
    decreases |entries|
  {
    if entries != [] {
      EntryOfIs(entries[1..], tool);
      assert entries == [entries[0]] + entries[1..];
      if EntryOf(entries, tool).Some? { assert EntryOf(entries, tool).value in entries; }
    }
  }

  // ----- candidate keys -----

  function LastIndex(s: string, c: char): (n: int)
    ensures -1 <= n < |s|
  {
    if s == "" then -1
    else if s[|s| - 1] == c then |s| - 1
    else LastIndex(s[..|s| - 1], c)
  }

  lemma {:induction false} LastIndexIs(a: string, c: char, b: string)
    requires c !in b
    ensures LastIndex(a + ([c] + b), c) == |a|
    decreases |b|
  {
    var s := a + ([c] + b);
    if b != "" {
      var b' := b[..|b| - 1];
      assert s[..|s| - 1] == a + ([c] + b');
      assert s[|s| - 1] == b[|b| - 1];
      LastIndexIs(a, c, b');
    }
  }

  /** The tool of a source-hash key, or nothing when the key has another shape. */
  function CandidateTool(key: string): Name {
    var last := LastIndex(key, '/');
    if last <= 0 then ""
    else
      var previous := LastIndex(key[..last], '/');
      if previous <= 0 then "" else key[..previous]
  }

  function ToolKey(tool: Name, kind: string, index: string): string {
    tool + (['/'] + (kind + (['/'] + index)))
  }

  /** Reading the tool off a key inverts writing it, whatever slashes the tool's own name holds. */
  lemma KeyNamesItsTool(tool: Name, kind: string, index: string)
    requires '/' !in kind && '/' !in index
    ensures CandidateTool(ToolKey(tool, kind, index)) == tool
  {
    var key := ToolKey(tool, kind, index);
    var front := tool + (['/'] + kind);
    assert key == front + (['/'] + index);
    LastIndexIs(front, '/', index);
    assert key[..|front|] == front;
    LastIndexIs(tool, '/', kind);
    assert front[..|tool|] == tool;
  }

  // ----- intent drift -----

  function Hash(hashes: map<string, string>, key: string): string {
    if key in hashes then hashes[key] else ""
  }

  /** The methods and the sources a tool was locked with are the ones it has now. */
  predicate SameIntent(previous: Lock, tool: Name, methodsHash: map<Name, string>, sourceHash: map<string, string>) {
    && tool in previous.methodsHash && previous.methodsHash[tool] == Hash(methodsHash, tool)
    && (forall key :: key in sourceHash && CandidateTool(key) == tool ==>
          Hash(previous.sourceHash, key) == sourceHash[key])
    && (forall key :: key in previous.sourceHash && CandidateTool(key) == tool ==> key in sourceHash)
  }

  method IntentDrifted(previous: Option<Lock>, projection: seq<Entry>, tool: Name, methodsHash: map<Name, string>,
                       sourceHash: map<string, string>)
    returns (drifted: bool)
    ensures drifted <==>
              previous.Some? && EntryOf(projection, tool).Some?
              && !SameIntent(previous.value, tool, methodsHash, sourceHash)
  {
    hide CandidateTool, Hash;
    if previous.None? || EntryOf(projection, tool).None? {
      return false;
    }
    var before := previous.value;
    if tool !in before.methodsHash || before.methodsHash[tool] != Hash(methodsHash, tool) {
      return true;
    }
    var pending := sourceHash.Keys;
    while pending != {}
      invariant pending <= sourceHash.Keys
      invariant forall key :: key in sourceHash && key !in pending && CandidateTool(key) == tool ==>
        Hash(before.sourceHash, key) == sourceHash[key]
    {
      var key :| key in pending;
      if CandidateTool(key) == tool && Hash(before.sourceHash, key) != sourceHash[key] {
        return true;
      }
      pending := pending - {key};
    }
    pending := before.sourceHash.Keys;
    while pending != {}
      invariant pending <= before.sourceHash.Keys
      invariant forall key :: key in before.sourceHash && key !in pending && CandidateTool(key) == tool ==>
                  key in sourceHash
    {
      var key :| key in pending;
      if CandidateTool(key) == tool && key !in sourceHash {
        return true;
      }
      pending := pending - {key};
    }
    return false;
  }

  /** For a tool that is unchanged, its methods' hash is on file and the same, and so are the hashes recorded
      under its own keys, key by key. */
  lemma UnchangedSources(previous: Lock, tool: Name, methodsHash: map<Name, string>, sourceHash: map<string, string>,
                         kind: string, index: string)
    requires SameIntent(previous, tool, methodsHash, sourceHash)
    requires '/' !in kind && '/' !in index
    ensures var key := ToolKey(tool, kind, index); Hash(previous.sourceHash, key) == Hash(sourceHash, key)
    ensures tool in previous.methodsHash && Hash(previous.methodsHash, tool) == Hash(methodsHash, tool)
  {
    KeyNamesItsTool(tool, kind, index);
  }

  // ----- carrying checksums forward -----

  function CarriedChecksum(a: Artifact, prior: seq<Artifact>): string {
    if prior == [] then a.checksum
    else if prior[0].shape == a.shape && prior[0].Pinned() then prior[0].checksum
    else CarriedChecksum(a, prior[1..])
  }

  function Carried(artifacts: seq<Artifact>, prior: seq<Artifact>): seq<Artifact> {
    seq(|artifacts|, i requires 0 <= i < |artifacts| =>
      if artifacts[i].Pinned() then artifacts[i] else artifacts[i].(checksum := CarriedChecksum(artifacts[i], prior)))
  }

  /** The checksum of an identical artifact that the previous entry pinned; identity is never reused. */
  function CarryForward(e: Entry, projection: seq<Entry>): Entry {
    match EntryOf(projection, e.tool)
    case None => e
    case Some(prior) => e.(artifacts := Carried(e.artifacts, prior.artifacts))
  }

  lemma {:induction false} CarriedFrom(a: Artifact, prior: seq<Artifact>)
    ensures CarriedChecksum(a, prior) == a.checksum
            || exists before ::
                 && before in prior && before.shape == a.shape && before.Pinned()
                 && before.checksum == CarriedChecksum(a, prior)
    decreases |prior|
  {
    if prior != [] && !(prior[0].shape == a.shape && prior[0].Pinned()) {
      CarriedFrom(a, prior[1..]);
      assert forall x :: x in prior[1..] ==> x in prior;
    }
  }

  /** Only missing checksums change, and only to one pinned for an artifact that is otherwise the same. */
  lemma CarryForwardIsSafe(e: Entry, projection: seq<Entry>, i: nat)
    requires i < |e.artifacts|
    ensures var c := CarryForward(e, projection);
            && c.tool == e.tool && c.candidate == e.candidate && c.identity == e.identity
            && |c.artifacts| == |e.artifacts|
            && c.artifacts[i].shape == e.artifacts[i].shape
            && (e.artifacts[i].Pinned() ==> c.artifacts[i] == e.artifacts[i])
            && (c.artifacts[i] != e.artifacts[i] ==>
                  exists p, x :: p in projection && p.tool == e.tool && x in p.artifacts && x.Pinned()
                         && x == c.artifacts[i])
  {
    EntryOfIs(projection, e.tool);
    var c := CarryForward(e, projection);
    if c.artifacts[i] != e.artifacts[i] {
      var prior := EntryOf(projection, e.tool).value;
      CarriedFrom(e.artifacts[i], prior.artifacts);
      var x :| x in prior.artifacts && x.shape == e.artifacts[i].shape && x.Pinned()
               && x.checksum == c.artifacts[i].checksum;
      assert x == c.artifacts[i];
    }
  }

  /** And what can be carried is: an artifact comes out pinned exactly where it was pinned already or the
      previous entry of its tool pins one of the same shape; of several the first counts. */
  lemma CarryForwardIsComplete(e: Entry, projection: seq<Entry>, i: nat)
    requires i < |e.artifacts|
    ensures var c, prior := CarryForward(e, projection).artifacts[i], EntryOf(projection, e.tool);
            && (c.Pinned() <==>
                 || e.artifacts[i].Pinned()
                 || (prior.Some? && exists x <- prior.value.artifacts :: Pins(x, e.artifacts[i])))
            && (!e.artifacts[i].Pinned() && prior.Some? ==>
                 forall k :: 0 <= k < |prior.value.artifacts| && Pins(prior.value.artifacts[k], e.artifacts[i])
                             && (forall l :: 0 <= l < k ==> !Pins(prior.value.artifacts[l], e.artifacts[i])) ==>
                   c == prior.value.artifacts[k])
  {
    if EntryOf(projection, e.tool).Some? {
      var prior := EntryOf(projection, e.tool).value.artifacts;
      var k := FirstPin(e.artifacts[i], prior);
      if k < |prior| { assert prior[k] in prior; }
    }
  }

  /** `x` is pinned, and of the same shape. */
  predicate Pins(x: Artifact, a: Artifact) {
    x.shape == a.shape && x.checksum != "" && x.checksum != "sha256:auto"
  }

  lemma {:induction false} FirstPin(a: Artifact, prior: seq<Artifact>) returns (k: nat)
    ensures k <= |prior| && forall l :: 0 <= l < k ==> !Pins(prior[l], a)
    ensures k < |prior| ==> Pins(prior[k], a)
    ensures CarriedChecksum(a, prior) == if k < |prior| then prior[k].checksum else a.checksum
    decreases |prior|
  {
    if prior == [] || Pins(prior[0], a) {
      k := 0;
    } else {
      var j := FirstPin(a, prior[1..]);
      k := j + 1;
      assert forall l :: 0 < l < k ==> prior[l] == prior[1..][l - 1];
    }
  }

  // ----- assembly -----

  /** The tools this run resolves. */
  function Resolvable(schema: map<Name, Tool>): set<Name> {
    set n | n in schema && schema[n].methods > 0
  }

  function Projection(previous: Option<Lock>): Option<seq<Entry>> {
    if previous.Some? && previous.value.current then previous.value.projection else Some([])
  }

  function FreshEntry(w: World, projection: seq<Entry>, tool: Name): (entry: Entry)
    requires tool in w.selected
    ensures entry.tool == tool
  {
    CarryForward(w.selected[tool].(tool := tool), projection)
  }

  /** What a fresh entry is: the selected candidate under the tool's name, its artifacts pinned wherever they
      were, or where the previous entry of the tool pins one of the same shape. */
  lemma FreshEntryIs(w: World, projection: seq<Entry>, tool: Name, i: nat)
    requires tool in w.selected && i < |w.selected[tool].artifacts|
    ensures var entry, chosen, prior := FreshEntry(w, projection, tool), w.selected[tool], EntryOf(projection, tool);
            && entry.candidate == chosen.candidate && entry.identity == chosen.identity
            && |entry.artifacts| == |chosen.artifacts| && entry.artifacts[i].shape == chosen.artifacts[i].shape
            && (chosen.artifacts[i].Pinned() ==> entry.artifacts[i] == chosen.artifacts[i])
            && (entry.artifacts[i].Pinned() <==>
                 || chosen.artifacts[i].Pinned()
                 || (prior.Some? && exists x <- prior.value.artifacts :: Pins(x, chosen.artifacts[i])))
  {
    CarryForwardIsSafe(w.selected[tool].(tool := tool), projection, i);
    CarryForwardIsComplete(w.selected[tool].(tool := tool), projection, i);
  }

  predicate ExpectedValid(expected: seq<Name>) {
    && (forall i, j :: 0 <= i < j < |expected| ==> expected[i] != expected[j])
    && (forall n :: n in expected ==> n != "" && TrimSpace(n) == n)
  }

  /** Exactly when a document can be assembled. */
  predicate Assemblable(w: World, schema: map<Name, Tool>, previous: Option<Lock>, expected: seq<Name>) {
    Projection(previous).Some?
    && var projection := Projection(previous).value;
    && Distinct(projection)
    && ExpectedValid(expected)
    && (forall n :: n in Resolvable(schema) ==>
          n in w.selected && w.Immutable(FreshEntry(w, projection, n)) && n in expected)
    && (forall e :: e in projection && e.tool in expected && e.tool !in Resolvable(schema) ==> w.Immutable(e))
    && (forall n :: n in expected && n !in Resolvable(schema) ==> n in Tools(projection))
  }

  /** What an assembled document is. */
  predicate Assembled(w: World, schema: map<Name, Tool>, projection: seq<Entry>, expected: seq<Name>,
                      entries: seq<Entry>) {
    && Ascending(entries)
    && Tools(entries) == Elements(expected)
    && (forall e :: e in entries ==> w.Immutable(e))
    && (forall e :: e in entries && e.tool in Resolvable(schema) ==>
          e.tool in w.selected && e == FreshEntry(w, projection, e.tool))
    && (forall e :: e in entries && e.tool !in Resolvable(schema) ==> e in projection)
  }

  predicate AscendingNames(names: seq<Name>) {
    forall i, j :: 0 <= i < j < |names| ==> LexLess(names[i], names[j])
  }

  lemma InsertNameAscends(sorted: seq<Name>, p: nat, n: Name)
    requires p <= |sorted| && AscendingNames(sorted)
    requires forall k :: 0 <= k < p ==> LexLess(sorted[k], n)
    requires forall k :: p <= k < |sorted| ==> LexLess(n, sorted[k])
    ensures AscendingNames(sorted[..p] + ([n] + sorted[p..]))
  {
    hide LexLess;
    var more := sorted[..p] + ([n] + sorted[p..]);
    assert forall k :: 0 <= k < p ==> more[k] == sorted[k];
    assert more[p] == n && forall k :: p < k < |more| ==> more[k] == sorted[k - 1];
  }

  /** The sorted list of a set of names, as iteration over a map followed by a sort gives it. */
  method SortedNames(names: set<Name>) returns (sorted: seq<Name>)
    ensures AscendingNames(sorted)
    ensures Elements(sorted) == names
  {
    hide LexLess;
    sorted := [];
    var pending := names;
    while pending != {}
      invariant pending <= names && Elements(sorted) == names - pending
      invariant AscendingNames(sorted)
    {
      var n :| n in pending;
      assert n !in sorted by { assert n !in Elements(sorted); }
      var before := sorted;
      sorted := InsertName(sorted, n);
      assert Elements(sorted) == Elements(before) + {n};
      pending := pending - {n};
    }
  }

  method InsertName(sorted: seq<Name>, n: Name) returns (more: seq<Name>)
    requires n !in sorted && AscendingNames(sorted)
    ensures AscendingNames(more)
    ensures forall x :: x in more <==> x in sorted || x == n
  {
    hide LexLess;
    var p := 0;
    while p < |sorted| && LexLess(sorted[p], n)
      invariant 0 <= p <= |sorted| && forall k :: 0 <= k < p ==> LexLess(sorted[k], n)
    {
      p := p + 1;
    }
    forall k | p <= k < |sorted| ensures LexLess(n, sorted[k]) {
      LexTotal(sorted[k], n);
      if k > p {
        LexTotal(sorted[p], sorted[k]);
        LexTransitive(n, sorted[p], sorted[k]);
      }
    }
    InsertNameAscends(sorted, p, n);
    more := sorted[..p] + ([n] + sorted[p..]);
    assert sorted == sorted[..p] + sorted[p..];
  }

  /** `universalLockCoverageNames`: the tools of the closure that have something to lock, sorted. */
  method CoverageNames(tools: map<Name, Tool>) returns (names: seq<Name>)
    ensures Elements(names) == Resolvable(tools)
    ensures AscendingNames(names)
  {
    names := SortedNames(set n | n in tools && tools[n].methods > 0);
  }

  /** A fresh plan for every tool with methods, its missing checksums carried forward. */
  method ResolveFresh(w: World, schema: map<Name, Tool>, projection: seq<Entry>)
      returns (failed: Option<Name>, plans: seq<Entry>)
    ensures failed.Some? <==> exists n :: n in Resolvable(schema) && n !in w.selected
    ensures failed.None? ==>
      && Tools(plans) == Resolvable(schema) && Distinct(plans)
      && forall e :: e in plans ==> e.tool in w.selected && e == FreshEntry(w, projection, e.tool)
  {
    hide CarryForward, LexLess, AscendingNames;
    var names := SortedNames(schema.Keys);
    plans := [];
    for i := 0 to |names|
      invariant forall e :: e in plans ==>
                  e.tool in w.selected && e == FreshEntry(w, projection, e.tool) && e.tool in names[..i]
      invariant forall j :: 0 <= j < i ==>
                  names[j] in schema && (schema[names[j]].methods > 0 ==> names[j] in Tools(plans))
      invariant forall e :: e in plans ==> e.tool in Resolvable(schema)
      invariant Distinct(plans)
    {
      var name := names[i];
      assert name in Elements(names);
      assert names[..i + 1] == names[..i] + [name];
      if schema[name].methods == 0 {
        continue;
      }
      if name !in w.selected {
        return Some(name), plans;
      }
      var entry := FreshEntry(w, projection, name);
      NewName(names, i);
      ToolsMore(plans, entry);
      plans := plans + [entry];
    }
    assert forall n :: n in Resolvable(schema) ==> n in Elements(names);
    return None, plans;
  }

  lemma NewName(names: seq<Name>, i: nat)
    requires i < |names| && AscendingNames(names)
    ensures names[i] !in names[..i]
  {
    forall k | 0 <= k < i ensures names[k] != names[i] { LexTotal(names[k], names[i]); }
  }

  lemma ToolsMore(entries: seq<Entry>, e: Entry)
    ensures Tools(entries + [e]) == Tools(entries) + {e.tool}
  {
    var more := entries + [e];
    forall x | x in entries ensures x in more {}
    assert e in more;
    assert forall x :: x in more ==> x in entries || x == e;
  }

  predicate Retained(expected: seq<Name>, resolved: set<Name>, e: Entry) {
    e.tool in expected && e.tool !in resolved
  }

  /** The previous entries of expected tools that were not resolved afresh. */
  method Retain(w: World, projection: seq<Entry>, expected: seq<Name>, plans: seq<Entry>)
      returns (failed: Option<Name>, all: seq<Entry>)
    requires Distinct(projection) && Distinct(plans)
    ensures failed.Some? <==> exists e :: e in projection && Retained(expected, Tools(plans), e) && !w.Immutable(e)
    ensures failed.None? ==>
      && Distinct(all)
      && forall e :: e in all <==> e in plans || (e in projection && Retained(expected, Tools(plans), e))
  {
    all := plans;
    for i := 0 to |projection|
      invariant forall e :: e in all <==> e in plans || (e in projection[..i] && Retained(expected, Tools(plans), e))
      invariant forall e :: e in projection[..i] && Retained(expected, Tools(plans), e) ==> w.Immutable(e)
      invariant Distinct(all)
    {
      var entry := projection[i];
      assert projection[..i + 1] == projection[..i] + [entry];
      assert entry in projection;
      if entry.tool !in expected || entry.tool in Tools(plans) {
        continue;
      }
      if !w.Immutable(entry) {
        assert Retained(expected, Tools(plans), entry);
        return Some(entry.tool), all;
      }
      assert Retained(expected, Tools(plans), entry);
      forall e | e in all ensures e.tool != entry.tool {
        if e in projection[..i] { var k :| 0 <= k < i && projection[k] == e; }
      }
      all := all + [entry];
    }
    assert projection[..|projection|] == projection;
    return None, all;
  }

  /** All or nothing: no tool twice, every entry immutable, in the order of tool names. */
  method BuildLockDocument(w: World, plans: seq<Entry>) returns (result: Result)
    ensures result.Locked? <==> Distinct(plans) && forall e :: e in plans ==> w.Immutable(e)
    ensures result.Locked? ==> Ascending(result.entries) && forall e :: e in result.entries <==> e in plans
  {
    hide LexLess;
    var sorted: seq<Entry> := [];
    for i := 0 to |plans|
      invariant Ascending(sorted) && forall e :: e in sorted <==> e in plans[..i]
      invariant Distinct(plans[..i]) && forall e :: e in plans[..i] ==> w.Immutable(e)
    {
      var plan := plans[i];
      assert plans[..i + 1] == plans[..i] + [plan];
      if plan.tool in Tools(sorted) {
        RepeatedTool(plans, i, sorted);
        return Failed(Duplicate(plan.tool));
      }
      if !w.Immutable(plan) {
        assert plan in plans;
        return Failed(NotImmutable(plan.tool));
      }
      forall e | e in plans[..i] ensures e.tool != plan.tool { assert e in sorted; }
      sorted := InsertEntry(sorted, plan);
    }
    assert plans[..|plans|] == plans;
    return Locked(sorted);
  }

  lemma RepeatedTool(plans: seq<Entry>, i: nat, sorted: seq<Entry>)
    requires i < |plans| && (forall e :: e in sorted <==> e in plans[..i]) && plans[i].tool in Tools(sorted)
    ensures !Distinct(plans)
  {
    var e :| e in sorted && e.tool == plans[i].tool;
    var k :| 0 <= k < i && plans[k] == e;
  }

  method InsertEntry(sorted: seq<Entry>, e: Entry) returns (more: seq<Entry>)
    requires Ascending(sorted) && e.tool !in Tools(sorted)
    ensures Ascending(more) && forall x :: x in more <==> x in sorted || x == e
  {
    hide LexLess;
    var p := 0;
    while p < |sorted| && LexLess(sorted[p].tool, e.tool)
      invariant 0 <= p <= |sorted| && forall k :: 0 <= k < p ==> LexLess(sorted[k].tool, e.tool)
    {
      p := p + 1;
    }
    forall k | p <= k < |sorted| ensures LexLess(e.tool, sorted[k].tool) {
      assert sorted[k] in sorted;
      LexTotal(sorted[k].tool, e.tool);
      if k > p {
        LexTotal(sorted[p].tool, sorted[k].tool);
        LexTransitive(e.tool, sorted[p].tool, sorted[k].tool);
      }
    }
    InsertAscends(sorted, p, e);
    more := sorted[..p] + ([e] + sorted[p..]);
    assert sorted == sorted[..p] + sorted[p..];
  }

  lemma InsertAscends(sorted: seq<Entry>, p: nat, e: Entry)
    requires p <= |sorted| && Ascending(sorted)
    requires forall k :: 0 <= k < p ==> LexLess(sorted[k].tool, e.tool)
    requires forall k :: p <= k < |sorted| ==> LexLess(e.tool, sorted[k].tool)
    ensures Ascending(sorted[..p] + ([e] + sorted[p..]))
  {
    hide LexLess;
    var more := sorted[..p] + ([e] + sorted[p..]);
    assert forall k :: 0 <= k < p ==> more[k] == sorted[k];
    assert more[p] == e && forall k :: p < k < |more| ==> more[k] == sorted[k - 1];
  }

  /** The document covers exactly the expected tools. */
  method VerifyCoverage(entries: seq<Entry>, expected: seq<Name>) returns (covered: bool)
    ensures covered <==> ExpectedValid(expected) && Tools(entries) == Elements(expected)
  {
    hide Tools, TrimSpace;
    var names: set<Name> := {};
    for i := 0 to |expected|
      invariant names == Elements(expected[..i])
      invariant forall j, k :: 0 <= j < k < i ==> expected[j] != expected[k]
      invariant forall j :: 0 <= j < i ==> expected[j] != "" && TrimSpace(expected[j]) == expected[j]
    {
      var name := expected[i];
      assert name in expected;
      if name == "" || TrimSpace(name) != name {
        return false;
      }
      if name in names {
        var k :| 0 <= k < i && expected[k] == name;
        return false;
      }
      assert expected[..i + 1] == expected[..i] + [name];
      assert Elements(expected[..i + 1]) == Elements(expected[..i]) + {name};
      names := names + {name};
    }
    assert expected[..|expected|] == expected;
    return Tools(entries) == names;
  }

  /** `resolveUniversalLockDocument`: it succeeds exactly when the closure can be covered, and then every
      entry is fresh, or retained from the previous lock because this run did not resolve its tool. */
  method ResolveUniversalLockDocument(w: World, schema: map<Name, Tool>, previous: Option<Lock>, expected: seq<Name>)
    returns (result: Result)
    ensures result.Locked? <==> Assemblable(w, schema, previous, expected)
    ensures result.Locked? ==> Assembled(w, schema, Projection(previous).value, expected, result.entries)
  {
    hide CarryForward, LexLess, FreshEntry, ExpectedValid;
    var decoded := Projection(previous);
    if decoded.None? || !Distinct(decoded.value) {
      return Failed(Unreadable);
    }
    var projection := decoded.value;
    var failed, plans := ResolveFresh(w, schema, projection);
    if failed.Some? {
      return Failed(NoCandidate(failed.value));
    }
    var stuck, all := Retain(w, projection, expected, plans);
    if stuck.Some? {
      return Failed(NotImmutable(stuck.value));
    }
    PlansMeet(w, schema, projection, expected, plans, all);
    result := BuildLockDocument(w, all);
    if result.Failed? {
      return;
    }
    SameTools(all, result.entries);
    var covered := VerifyCoverage(result.entries, expected);
    if !covered {
      return Failed(Uncovered);
    }
  }

  lemma SameTools(a: seq<Entry>, b: seq<Entry>)
    requires forall e :: e in a <==> e in b
    ensures Tools(a) == Tools(b)
  {
  }

  /** What the collected plans say about the closure. */
  lemma PlansMeet(w: World, schema: map<Name, Tool>, projection: seq<Entry>, expected: seq<Name>, plans: seq<Entry>,
                  all: seq<Entry>)
    requires Tools(plans) == Resolvable(schema)
    requires forall e :: e in plans ==> e.tool in w.selected && e == FreshEntry(w, projection, e.tool)
    requires forall e :: e in all <==> e in plans || (e in projection && Retained(expected, Tools(plans), e))
    ensures Tools(all) == Elements(expected) <==>
      && Resolvable(schema) <= Elements(expected)
      && forall n :: n in expected && n !in Resolvable(schema) ==> n in Tools(projection)
    ensures (forall e :: e in all ==> w.Immutable(e)) <==>
      && (forall n :: n in Resolvable(schema) ==> n in w.selected && w.Immutable(FreshEntry(w, projection, n)))
      && (forall e :: e in projection && Retained(expected, Resolvable(schema), e) ==> w.Immutable(e))
    ensures forall e :: e in all && e.tool in Resolvable(schema) ==> e in plans
    ensures forall e :: e in all && e.tool !in Resolvable(schema) ==> e in projection
  {
    hide FreshEntry, LexLess;
    forall n | n in Resolvable(schema)
      ensures n in w.selected && FreshEntry(w, projection, n) in plans && n in Tools(all)
    {
      var e :| e in plans && e.tool == n;
      assert e in all;
    }
    forall e | e in plans ensures e in all && e.tool in Resolvable(schema) { assert e.tool in Tools(plans); }
    forall n | n in Tools(all) ensures n in Resolvable(schema) || (n in expected && n in Tools(projection)) {
      var e :| e in all && e.tool == n;
    }
    forall n | n in expected && n !in Resolvable(schema) && n in Tools(projection) ensures n in Tools(all) {
      var e :| e in projection && e.tool == n;
      assert Retained(expected, Tools(plans), e) && e in all;
    }
  }

  // ----- updating a lock -----

  /** Without a lock of the current version only a full update can be persisted: nothing is retained, so a
      document exists only if the run resolves the whole closure. */
  lemma PartialUpdateNeedsCurrentLock(w: World, schema: map<Name, Tool>, previous: Option<Lock>, expected: seq<Name>)
    requires previous.None? || !previous.value.current
    requires Assemblable(w, schema, previous, expected)
    ensures Elements(expected) == Resolvable(schema)
  {
    assert Tools([]) == {};
  }

  /** The tools an update resolves afresh: those in the profile, and those whose recorded intent drifted. */
  method UpdateSchema(closure: map<Name, Tool>, profiled: set<Name>, previous: Option<Lock>,
                      methodsHash: map<Name, string>, sourceHash: map<string, string>)
    returns (schema: map<Name, Tool>)
    requires Projection(previous).Some?
    ensures schema.Keys <= closure.Keys && forall n :: n in schema ==> schema[n] == closure[n]
    ensures forall n :: n in closure ==> (n !in schema <==>
      n !in profiled && (previous.None? || EntryOf(Projection(previous).value, n).None?
                         || SameIntent(previous.value, n, methodsHash, sourceHash)))
  {
    hide SameIntent, EntryOf;
    schema := map[];
    var pending := closure.Keys;
    while pending != {}
      invariant pending <= closure.Keys
      invariant schema.Keys <= closure.Keys - pending && forall n :: n in schema ==> schema[n] == closure[n]
      invariant forall n :: n in closure && n !in pending ==> (n !in schema <==>
        n !in profiled && (previous.None? || EntryOf(Projection(previous).value, n).None?
                           || SameIntent(previous.value, n, methodsHash, sourceHash)))
    {
      var name :| name in pending;
      pending := pending - {name};
      var drifted := IntentDrifted(previous, Projection(previous).value, name, methodsHash, sourceHash);
      if name in profiled || drifted {
        schema := schema[name := closure[name]];
      }
    }
  }

  /** `update` over a closure: the lock covers it exactly, and an entry is retained only for a tool outside
      the profile whose methods and sources are the ones it was locked with. */
  method UpdateLock(w: World, closure: map<Name, Tool>, profiled: set<Name>, previous: Option<Lock>,
                    methodsHash: map<Name, string>, sourceHash: map<string, string>)
    returns (result: Result)
    ensures result.Locked? ==>
      && Projection(previous).Some?
      && Ascending(result.entries) && Tools(result.entries) == Resolvable(closure)
      && forall e :: e in result.entries ==>
           || (e.tool in w.selected && e == FreshEntry(w, Projection(previous).value, e.tool))
           || (e.tool !in profiled && previous.Some? && e in Projection(previous).value
               && SameIntent(previous.value, e.tool, methodsHash, sourceHash))
  {
    hide SameIntent, EntryOf, FreshEntry, LexLess, Assemblable;
    if Projection(previous).None? {
      return Failed(Unreadable);
    }
    var schema := UpdateSchema(closure, profiled, previous, methodsHash, sourceHash);
    var expected := CoverageNames(closure);
    result := ResolveUniversalLockDocument(w, schema, previous, expected);
    if result.Locked? {
      var projection := Projection(previous).value;
      forall e | e in result.entries && e.tool !in Resolvable(schema)
        ensures e.tool !in profiled && previous.Some? && e in projection
                && SameIntent(previous.value, e.tool, methodsHash, sourceHash)
      {
        assert e.tool in Tools(result.entries);
        assert e.tool in Resolvable(closure);
        EntryOfIs(projection, e.tool);
        assert e.tool in Tools(projection);
      }
    }
  }
}
