/**
 Layering of configurations: what merging two tools, two method lists or a stack of layers means, and
 why layers may be merged in any grouping.
 */
module Layers {
  import opened Basics

  /** A decoded configuration value. */
  datatype Any =
    | Nil | Text(text: string) | Number(number: int) | Flag(flag: bool)
    | List(items: seq<Any>) | Table(entries: map<string, Any>)

  type Fields = map<string, Any>

  /** One install method. `fields` are those that a layer overrides as a whole when it declares them;
      `runtime` is metadata no layer declares. */
  datatype Method = Method(
    kind: string, label_: string, projectRoot: string, locked: seq<string>, err: string,
    guard: Any, fields: Fields, declared: set<string>, config: map<string, Any>, runtime: Any)
  {
    function Key(): string { kind + "\0" + label_ }

    predicate Guarded() { "When" in declared || guard != Nil }
  }

  datatype Tool = Tool(
    fields: Fields, tags: seq<string>, requiresWhen: Fields, methods: seq<Method>, declared: set<string>)

  datatype Schema = Schema(
    version: int, defaults: Fields, defaultsDeclared: set<string>, tools: map<string, Tool>,
    allowNewTools: bool, projectRoot: string)

  /** The tool fields the most specific declaring layer overwrites. */
  function Overwritten(): set<string> {
    {"Name", "PreInstall", "PostInstall", "Requires", "MethodPrefer", "MethodOnly", "IsSimple", "DependencyOnly"}
  }

  /** The method fields replaced wholesale by a declaring layer. */
  function Atomic(): set<string> {
    {"Inferred", "ArchMap", "OSMap", "Requires", "Sources", "Distributions", "PreInstall", "PostInstall",
     "SecretRef", "ChecksumSecretRef", "SignatureSecretRef"}
  }

  const DEFAULT_FIELDS: set<string> := {"Manager", "AurHelper", "MethodOrder", "ArchMap", "OSMap"}

  // ----- the rules for one field -----

  /** The declared entries of `upper` replace those of `lower`; a declared zero value erases. */
  function Overlay(lower: Fields, upper: Fields, declared: set<string>): Fields {
    (lower - declared) + (map f | f in upper && f in declared :: upper[f])
  }

  /** Appends what is not there yet, in order. */
  function Union(dst: seq<string>, upper: seq<string>): seq<string>
    decreases |upper|
  {
    if upper == [] then dst
    else if upper[0] in dst then Union(dst, upper[1..])
    else Union(dst + [upper[0]], upper[1..])
  }

  /** One key of a method's configuration: `pkg_overrides` tables merge entry by entry. */
  function MergeEntry(key: string, lower: Any, upper: Any): Any {
    if key == "pkg_overrides" && lower.Table? && upper.Table? then Table(lower.entries + upper.entries) else upper
  }

  function MergeConfig(lower: map<string, Any>, upper: map<string, Any>): map<string, Any> {
    map k | k in lower.Keys + upper.Keys ::
      if k !in upper then lower[k] else if k !in lower then upper[k] else MergeEntry(k, lower[k], upper[k])
  }

  // ----- methods -----

  function MergeMethod(lower: Method, upper: Method): Method {
    Method(
      upper.kind, upper.label_, upper.projectRoot, upper.locked, upper.err,
      if upper.Guarded() then upper.guard else lower.guard,
      Overlay(lower.fields, upper.fields, upper.declared * Atomic()),
      lower.declared + upper.declared * Atomic() + (if upper.Guarded() then {"When"} else {}),
      MergeConfig(lower.config, upper.config),
      lower.runtime)
  }

  function Keys(methods: seq<Method>): seq<string> {
    seq(|methods|, i requires 0 <= i < |methods| => methods[i].Key())
  }

  /** Index by key; the last of several methods with one key stands for it. */
  function Index(methods: seq<Method>): map<string, Method>
    ensures Index(methods).Keys == Elements(Keys(methods))
  {
    if methods == [] then map[]
    else
      assert Keys(methods) == [methods[0].Key()] + Keys(methods[1..]);
      map[methods[0].Key() := methods[0]] + Index(methods[1..])
  }

  /** One upper method: merged into the index, or queued as a new key. */
  function AbsorbOne(byKey: map<string, Method>, order: seq<string>,
                     m: Method): (result: (map<string, Method>, seq<string>))
    requires Elements(order) == byKey.Keys
    ensures Elements(result.1) == result.0.Keys
  {
    if m.Key() in byKey then (byKey[m.Key() := MergeMethod(byKey[m.Key()], m)], order)
    else
      assert Elements(order + [m.Key()]) == Elements(order) + {m.Key()};
      (byKey[m.Key() := m], order + [m.Key()])
  }

  /** The upper methods one by one; new keys queue up behind. */
  function Absorb(byKey: map<string, Method>, order: seq<string>,
                  upper: seq<Method>): (result: (map<string, Method>, seq<string>))
    requires Elements(order) == byKey.Keys
    ensures Elements(result.1) == result.0.Keys
    decreases |upper|
  {
    if upper == [] then (byKey, order)
    else
      var (next, queue) := AbsorbOne(byKey, order, upper[0]);
      Absorb(next, queue, upper[1..])
  }

  function InOrder(byKey: map<string, Method>, order: seq<string>): seq<Method>
    requires Elements(order) <= byKey.Keys
  {
    seq(|order|, i requires 0 <= i < |order| => assert order[i] in Elements(order); byKey[order[i]])
  }

  function MergeMethods(lower: seq<Method>, upper: seq<Method>): seq<Method> {
    var (byKey, order) := Absorb(Index(lower), Keys(lower), upper);
    InOrder(byKey, order)
  }

  // ----- tools and schemas -----

  function MergeTool(lower: Tool, upper: Tool): Tool {
    Tool(
      Overlay(lower.fields, upper.fields, upper.declared * Overwritten()),
      if "Tags" in lower.declared + upper.declared then Union(lower.tags, upper.tags) else lower.tags,
      if "RequiresWhen" in upper.declared then lower.requiresWhen + upper.requiresWhen else lower.requiresWhen,
      MergeMethods(lower.methods, upper.methods),
      lower.declared + upper.declared * (Overwritten() + {"Tags", "RequiresWhen"}))
  }

  function MergeTools(lower: map<string, Tool>, upper: map<string, Tool>): map<string, Tool> {
    map n | n in lower.Keys + upper.Keys ::
      if n !in upper then lower[n] else if n !in lower then upper[n] else MergeTool(lower[n], upper[n])
  }

  /** Layers from least to most specific, onto an empty set of tools. */
  function Stack(layers: seq<Schema>): map<string, Tool> {
    if layers == [] then map[]
    else MergeTools(Stack(layers[..|layers| - 1]), layers[|layers| - 1].tools)
  }

  function StackDefaults(start: Fields, layers: seq<Schema>): Fields {
    if layers == [] then start
    else
      var top := layers[|layers| - 1];
      Overlay(StackDefaults(start, layers[..|layers| - 1]), top.defaults, top.defaultsDeclared * DEFAULT_FIELDS)
  }

  function StackDeclared(layers: seq<Schema>): set<string> {
    if layers == [] then {} else StackDeclared(layers[..|layers| - 1]) + layers[|layers| - 1].defaultsDeclared
  }

  function BindMethods(methods: seq<Method>, root: string): seq<Method> {
    seq(|methods|, i requires 0 <= i < |methods| => methods[i].(projectRoot := root))
  }

  function BindTool(t: Tool, root: string): Tool {
    t.(methods := BindMethods(t.methods, root))
  }

  /** Project-relative resources resolve against the project's directory, whichever layer named them. */
  function Bind(tools: map<string, Tool>, root: string): map<string, Tool> {
    map n | n in tools :: BindTool(tools[n], root)
  }

  /** The merge of a stack of layers, over the defaults of the engine. Nothing at all yields those. */
  function MergeLayers(engine: Fields, layers: seq<Schema>): Schema {
    if layers == [] then Schema(1, engine, {}, map[], false, "")
    else
      var top := layers[|layers| - 1];
      Schema(
        top.version, StackDefaults(engine, layers), StackDeclared(layers),
        Bind(Stack(layers), top.projectRoot), top.allowNewTools, top.projectRoot)
  }

  // ----- what parsing guarantees of a layer -----

  ghost predicate UniqueKeys(methods: seq<Method>) {
    forall i, j :: 0 <= i < j < |methods| ==> methods[i].Key() != methods[j].Key()
  }

  predicate OverridesAreTable(config: map<string, Any>) {
    "pkg_overrides" in config ==> config["pkg_overrides"].Table?
  }

  ghost predicate WellFormed(t: Tool) {
    && ("Tags" !in t.declared ==> t.tags == [])
    && ("RequiresWhen" !in t.declared ==> t.requiresWhen == map[])
    && UniqueKeys(t.methods)
    && (forall m :: m in t.methods ==> OverridesAreTable(m.config))
  }

  ghost predicate Parsed(tools: map<string, Tool>) {
    forall n :: n in tools ==> WellFormed(tools[n])
  }

  // ----- associativity, field by field -----

  lemma OverlayAssociative(a: Fields, b: Fields, c: Fields, db: set<string>, dc: set<string>)
    ensures Overlay(Overlay(a, b, db), c, dc) == Overlay(a, Overlay(b, c, dc), db + dc)
  {
    var left, right := Overlay(Overlay(a, b, db), c, dc), Overlay(a, Overlay(b, c, dc), db + dc);
    assert forall f :: f in left <==> f in right;
  }

  lemma {:induction false} UnionOfConcat(a: seq<string>, x: seq<string>, y: seq<string>)
    ensures Union(a, x + y) == Union(Union(a, x), y)
    decreases |x|
  {
    if x == [] {
      assert x + y == y;
    } else {
      assert (x + y)[1..] == x[1..] + y;
      UnionOfConcat(if x[0] in a then a else a + [x[0]], x[1..], y);
    }
  }

  /** The elements of `upper` that a union adds. */
  function Added(dst: seq<string>, upper: seq<string>): seq<string>
    decreases |upper|
  {
    if upper == [] then []
    else if upper[0] in dst then Added(dst, upper[1..])
    else [upper[0]] + Added(dst + [upper[0]], upper[1..])
  }

  lemma {:induction false} UnionAppends(dst: seq<string>, upper: seq<string>)
    ensures Union(dst, upper) == dst + Added(dst, upper)
    decreases |upper|
  {
    if upper != [] {
      UnionAppends(if upper[0] in dst then dst else dst + [upper[0]], upper[1..]);
    }
  }

  /** Adding first what a smaller list lacked changes nothing. */
  lemma {:induction false} UnionOfAdded(dst: seq<string>, small: seq<string>, upper: seq<string>)
    requires forall x :: x in small ==> x in dst
    ensures Union(dst, Added(small, upper)) == Union(dst, upper)
    decreases |upper|
  {
    if upper != [] {
      var x := upper[0];
      var dst' := if x in dst then dst else dst + [x];
      if x in small {
        UnionOfAdded(dst, small, upper[1..]);
      } else {
        assert Added(small, upper)[0] == x && Added(small, upper)[1..] == Added(small + [x], upper[1..]);
        UnionOfAdded(dst', small + [x], upper[1..]);
      }
    }
  }

  lemma {:induction false} UnionAssociative(a: seq<string>, b: seq<string>, c: seq<string>)
    ensures Union(Union(a, b), c) == Union(a, Union(b, c))
  {
    UnionAppends(b, c);
    UnionOfConcat(a, b, Added(b, c));
    UnionAppends(a, b);
    UnionContains(a, b);
    forall x | x in b ensures x in Union(a, b) { assert x in Elements(a) + Elements(b); }
    UnionOfAdded(Union(a, b), b, c);
  }

  lemma {:induction false} UnionContains(a: seq<string>, b: seq<string>)
    ensures Elements(Union(a, b)) == Elements(a) + Elements(b)
    decreases |b|
  {
    if b != [] {
      var a' := if b[0] in a then a else a + [b[0]];
      UnionContains(a', b[1..]);
      assert Elements(b) == {b[0]} + Elements(b[1..]);
      assert Elements(a') == Elements(a) + {b[0]} by { assert b[0] in a' && forall x :: x in a ==> x in a'; }
    }
  }

  lemma ConfigAssociative(a: map<string, Any>, b: map<string, Any>, c: map<string, Any>)
    requires OverridesAreTable(a) && OverridesAreTable(b) && OverridesAreTable(c)
    ensures MergeConfig(MergeConfig(a, b), c) == MergeConfig(a, MergeConfig(b, c))
  {
    hide MergeEntry;
    var left, right := MergeConfig(MergeConfig(a, b), c), MergeConfig(a, MergeConfig(b, c));
    assert left.Keys == right.Keys;
    forall k | k in left ensures left[k] == right[k] {
      if k in a && k in b && k in c { EntryAssociative(k, a[k], b[k], c[k]); }
    }
  }

  /** One key merges alike in both groupings, except when a non-table override sits between two tables
      and the lowest of them has entries that the highest lacks. */
  lemma EntryAssociative(k: string, a: Any, b: Any, c: Any)
    ensures MergeEntry(k, MergeEntry(k, a, b), c) == MergeEntry(k, a, MergeEntry(k, b, c))
            <==> !(k == "pkg_overrides" && a.Table? && !b.Table? && c.Table? && !(a.entries.Keys <= c.entries.Keys))
  {
    if k == "pkg_overrides" && a.Table? && c.Table? {
      if b.Table? {
        assert (a.entries + b.entries) + c.entries == a.entries + (b.entries + c.entries);
      } else if a.entries.Keys <= c.entries.Keys {
        assert a.entries + c.entries == c.entries;
      } else {
        var x :| x in a.entries && x !in c.entries;
        assert x in a.entries + c.entries;
      }
    }
  }

  /** A string between two tables hides the lowest one when merged with it first, and is hidden itself when
      merged with the highest first. */
  lemma OverrideExample()
    ensures var k, a, b, c := "pkg_overrides", Table(map["x" := Nil]), Text("none"), Table(map[]);
            && MergeEntry(k, MergeEntry(k, a, b), c) == Table(map[])
            && MergeEntry(k, a, MergeEntry(k, b, c)) == Table(map["x" := Nil])
  {
    var k, a, b, c := "pkg_overrides", Table(map["x" := Nil]), Text("none"), Table(map[]);
    assert a.entries + c.entries == a.entries;
  }

  lemma MethodAssociative(a: Method, b: Method, c: Method)
    requires OverridesAreTable(a.config) && OverridesAreTable(b.config) && OverridesAreTable(c.config)
    ensures MergeMethod(MergeMethod(a, b), c) == MergeMethod(a, MergeMethod(b, c))
  {
    var atomic := Atomic();
    ConfigAssociative(a.config, b.config, c.config);
    var db, dc := b.declared * atomic, c.declared * atomic;
    OverlayAssociative(a.fields, b.fields, c.fields, db, dc);
    assert "When" !in atomic;
    assert MergeMethod(b, c).declared * atomic == db + dc;
    assert MergeMethod(b, c).Guarded() <==> b.Guarded() || c.Guarded();
    assert MergeMethod(MergeMethod(a, b), c).declared == MergeMethod(a, MergeMethod(b, c)).declared;
  }

  // ----- method lists as an index and an order -----

  /** The merged index, key by key. */
  function Combine(lower: map<string, Method>, upper: map<string, Method>): map<string, Method> {
    map k | k in lower.Keys + upper.Keys ::
      if k !in upper then lower[k] else if k !in lower then upper[k] else MergeMethod(lower[k], upper[k])
  }

  lemma {:induction false} IndexAt(methods: seq<Method>, i: nat)
    requires UniqueKeys(methods) && i < |methods|
    ensures methods[i].Key() in Index(methods) && Index(methods)[methods[i].Key()] == methods[i]
    decreases i
  {
    var rest := methods[1..];
    if i == 0 {
      FirstIsNew(methods);
    } else {
      IndexAt(rest, i - 1);
    }
  }

  lemma FirstIsNew(methods: seq<Method>)
    requires methods != [] && UniqueKeys(methods)
    ensures methods[0].Key() !in Index(methods[1..]) && UniqueKeys(methods[1..])
  {
    assert methods[0].Key() !in Keys(methods[1..]);
  }

  lemma {:induction false} IndexHolds(methods: seq<Method>, k: string)
    requires k in Index(methods)
    ensures Index(methods)[k] in methods && Index(methods)[k].Key() == k
    decreases |methods|
  {
    if k in Index(methods[1..]) {
      IndexHolds(methods[1..], k);
    }
  }

  lemma UniqueIsFlat(methods: seq<Method>)
    requires UniqueKeys(methods)
    ensures InOrder(Index(methods), Keys(methods)) == methods
  {
    forall i | 0 <= i < |methods| ensures InOrder(Index(methods), Keys(methods))[i] == methods[i] {
      IndexAt(methods, i);
    }
  }

  /** With unique keys, the loop merges key by key and queues new keys in order. */
  lemma {:induction false} AbsorbCombines(byKey: map<string, Method>, order: seq<string>, upper: seq<Method>)
    requires Elements(order) == byKey.Keys && UniqueKeys(upper)
    ensures Absorb(byKey, order, upper) == (Combine(byKey, Index(upper)), Union(order, Keys(upper)))
    decreases |upper|
  {
    hide MergeMethod, Method.Key;
    if upper == [] {
      assert Combine(byKey, map[]) == byKey;
    } else {
      var m, rest := upper[0], upper[1..];
      var k := m.Key();
      FirstIsNew(upper);
      CombineFirst(byKey, k, m, Index(rest));
      assert k in order <==> k in byKey by { assert k in Elements(order) <==> k in byKey.Keys; }
      assert Keys(upper)[0] == k && Keys(upper)[1..] == Keys(rest);
      if k in byKey {
        AbsorbCombines(byKey[k := MergeMethod(byKey[k], m)], order, rest);
      } else {
        assert Elements(order + [k]) == Elements(order) + {k};
        AbsorbCombines(byKey[k := m], order + [k], rest);
      }
    }
  }

  lemma CombineFirst(byKey: map<string, Method>, k: string, m: Method, rest: map<string, Method>)
    requires k !in rest
    ensures Combine(byKey[k := if k in byKey then MergeMethod(byKey[k], m) else m], rest)
            == Combine(byKey, map[k := m] + rest)
  {
    hide MergeMethod;
  }

  /** A merge of two lists with unique keys: the combined index, the lower keys first. */
  lemma MergeIsCombine(lower: seq<Method>, upper: seq<Method>)
    requires UniqueKeys(lower) && UniqueKeys(upper)
    ensures var merged := MergeMethods(lower, upper);
            && UniqueKeys(merged)
            && Keys(merged) == Union(Keys(lower), Keys(upper))
            && Index(merged) == Combine(Index(lower), Index(upper))
  {
    hide Index, Absorb, Union, Combine, Keys;
    var byKey, order := Combine(Index(lower), Index(upper)), Union(Keys(lower), Keys(upper));
    AbsorbCombines(Index(lower), Keys(lower), upper);
    CombineKeyed(lower, upper);
    UniqueUnion(lower, upper);
    InOrderIndexes(byKey, order);
  }

  lemma CombineKeyed(lower: seq<Method>, upper: seq<Method>)
    ensures var byKey := Combine(Index(lower), Index(upper));
            && byKey.Keys == Elements(Union(Keys(lower), Keys(upper)))
            && forall k :: k in byKey ==> byKey[k].Key() == k
  {
    UnionContains(Keys(lower), Keys(upper));
    var byKey := Combine(Index(lower), Index(upper));
    forall k | k in byKey ensures byKey[k].Key() == k {
      if k in Index(lower) { IndexHolds(lower, k); }
      if k in Index(upper) { IndexHolds(upper, k); }
    }
  }

  lemma InOrderIndexes(byKey: map<string, Method>, order: seq<string>)
    requires Elements(order) == byKey.Keys && DistinctKeys(order)
    requires forall k :: k in byKey ==> byKey[k].Key() == k
    ensures var methods := InOrder(byKey, order);
            UniqueKeys(methods) && Keys(methods) == order && Index(methods) == byKey
  {
    hide Method.Key, Index;
    var methods := InOrder(byKey, order);
    forall i | 0 <= i < |order|
      ensures methods[i].Key() == order[i] && order[i] in byKey
    {
      assert order[i] in Elements(order);
    }
    assert Keys(methods) == order;
    forall k | k in byKey ensures Index(methods)[k] == byKey[k] {
      assert k in Elements(order);
      var i :| 0 <= i < |order| && order[i] == k;
      IndexAt(methods, i);
    }
  }

  ghost predicate DistinctKeys(keys: seq<string>) {
    forall i, j :: 0 <= i < j < |keys| ==> keys[i] != keys[j]
  }

  lemma {:induction false} UnionDistinct(dst: seq<string>, upper: seq<string>)
    requires DistinctKeys(dst)
    ensures DistinctKeys(Union(dst, upper))
    decreases |upper|
  {
    if upper != [] { UnionDistinct(if upper[0] in dst then dst else dst + [upper[0]], upper[1..]); }
  }

  lemma UniqueUnion(lower: seq<Method>, upper: seq<Method>)
    requires UniqueKeys(lower)
    ensures DistinctKeys(Union(Keys(lower), Keys(upper)))
  {
    UnionDistinct(Keys(lower), Keys(upper));
  }

  lemma CombineAssociative(a: map<string, Method>, b: map<string, Method>, c: map<string, Method>)
    requires forall k :: k in a ==> OverridesAreTable(a[k].config)
    requires forall k :: k in b ==> OverridesAreTable(b[k].config)
    requires forall k :: k in c ==> OverridesAreTable(c[k].config)
    ensures Combine(Combine(a, b), c) == Combine(a, Combine(b, c))
  {
    hide MergeMethod;
    var left, right := Combine(Combine(a, b), c), Combine(a, Combine(b, c));
    assert left.Keys == right.Keys;
    forall k | k in left ensures left[k] == right[k] {
      if k in a && k in b && k in c { MethodAssociative(a[k], b[k], c[k]); }
    }
  }

  lemma IndexedTables(methods: seq<Method>)
    requires forall m :: m in methods ==> OverridesAreTable(m.config)
    ensures forall k :: k in Index(methods) ==> OverridesAreTable(Index(methods)[k].config)
  {
    forall k | k in Index(methods) ensures OverridesAreTable(Index(methods)[k].config) { IndexHolds(methods, k); }
  }

  lemma MergedTables(lower: seq<Method>, upper: seq<Method>)
    requires UniqueKeys(lower) && UniqueKeys(upper)
    requires forall m :: m in lower + upper ==> OverridesAreTable(m.config)
    ensures forall m :: m in MergeMethods(lower, upper) ==> OverridesAreTable(m.config)
  {
    hide MergeMethods, Index, Keys;
    MergeIsCombine(lower, upper);
    var merged := MergeMethods(lower, upper);
    assert forall m :: m in lower ==> m in lower + upper;
    assert forall m :: m in upper ==> m in lower + upper;
    IndexedTables(lower);
    IndexedTables(upper);
    forall m | m in merged ensures OverridesAreTable(m.config) {
      var i :| 0 <= i < |merged| && merged[i] == m;
      IndexAt(merged, i);
    }
  }

  lemma MethodsAssociative(a: seq<Method>, b: seq<Method>, c: seq<Method>)
    requires UniqueKeys(a) && UniqueKeys(b) && UniqueKeys(c)
    requires forall m :: m in a + b + c ==> OverridesAreTable(m.config)
    ensures MergeMethods(MergeMethods(a, b), c) == MergeMethods(a, MergeMethods(b, c))
  {
    hide MergeMethods, Combine, Index, Keys, InOrder;
    var left, right := MergeMethods(MergeMethods(a, b), c), MergeMethods(a, MergeMethods(b, c));
    MergeIsCombine(a, b);
    MergeIsCombine(b, c);
    MergeIsCombine(MergeMethods(a, b), c);
    MergeIsCombine(a, MergeMethods(b, c));
    UnionAssociative(Keys(a), Keys(b), Keys(c));
    assert forall m :: m in a || m in b || m in c ==> m in a + b + c;
    IndexedTables(a);
    IndexedTables(b);
    IndexedTables(c);
    CombineAssociative(Index(a), Index(b), Index(c));
    UniqueIsFlat(left);
    UniqueIsFlat(right);
    assert Index(left) == Index(right) && Keys(left) == Keys(right);
    assert left == InOrder(Index(left), Keys(left));
    assert right == InOrder(Index(right), Keys(right));
  }

  // ----- tools -----

  lemma MergedIsWellFormed(a: Tool, b: Tool)
    requires WellFormed(a) && WellFormed(b)
    ensures WellFormed(MergeTool(a, b))
  {
    hide MergeMethods;
    MergeIsCombine(a.methods, b.methods);
    MergedTables(a.methods, b.methods);
  }

  lemma ToolAssociative(a: Tool, b: Tool, c: Tool)
    requires WellFormed(a) && WellFormed(b) && WellFormed(c)
    ensures MergeTool(MergeTool(a, b), c) == MergeTool(a, MergeTool(b, c))
  {
    DeclaredAssociative(a, b, c);
    MethodsAssociative(a.methods, b.methods, c.methods);
    FieldsAssociative(a, b, c);
    RequiresWhenAssociative(a, b, c);
    TagsAssociative(a, b, c);
    hide MergeMethods, Overlay, Union, UniqueKeys, OverridesAreTable;
  }

  lemma FieldsAssociative(a: Tool, b: Tool, c: Tool)
    ensures MergeTool(MergeTool(a, b), c).fields == MergeTool(a, MergeTool(b, c)).fields
  {
    hide MergeMethods, Overlay, Union;
    DeclaredAssociative(a, b, c);
    OverlayAssociative(a.fields, b.fields, c.fields, b.declared * Overwritten(), c.declared * Overwritten());
  }

  lemma RequiresWhenAssociative(a: Tool, b: Tool, c: Tool)
    requires "RequiresWhen" !in b.declared ==> b.requiresWhen == map[]
    ensures MergeTool(MergeTool(a, b), c).requiresWhen == MergeTool(a, MergeTool(b, c)).requiresWhen
  {
    hide MergeMethods, Overlay, Union;
    DeclaredAssociative(a, b, c);
    PlusAssociative(a.requiresWhen, b.requiresWhen, c.requiresWhen);
  }

  lemma PlusAssociative(a: Fields, b: Fields, c: Fields)
    ensures (a + b) + c == a + (b + c)
    ensures a + map[] == a
  {
  }

  lemma TagsAssociative(a: Tool, b: Tool, c: Tool)
    requires forall t :: t in {a, b, c} && "Tags" !in t.declared ==> t.tags == []
    ensures MergeTool(MergeTool(a, b), c).tags == MergeTool(a, MergeTool(b, c)).tags
  {
    hide MergeMethods, Overlay, Union;
    DeclaredAssociative(a, b, c);
    assert a in {a, b, c} && b in {a, b, c} && c in {a, b, c};
    UnionAssociative(a.tags, b.tags, c.tags);
    UnionWithNothing(a.tags);
    UnionWithNothing(b.tags);
    UnionWithNothing(Union(a.tags, b.tags));
  }

  lemma UnionWithNothing(a: seq<string>)
    ensures Union(a, []) == a
  {
  }

  lemma DeclaredAssociative(a: Tool, b: Tool, c: Tool)
    ensures MergeTool(MergeTool(a, b), c).declared == MergeTool(a, MergeTool(b, c)).declared
    ensures MergeTool(b, c).declared * Overwritten() == b.declared * Overwritten() + c.declared * Overwritten()
    ensures forall f :: f in {"Tags", "RequiresWhen"} ==>
              (f in MergeTool(b, c).declared <==> f in b.declared || f in c.declared)
    ensures forall f :: f in {"Tags", "RequiresWhen"} ==>
              (f in MergeTool(a, b).declared <==> f in a.declared || f in b.declared)
  {
    assert "Tags" !in Overwritten() && "RequiresWhen" !in Overwritten();
  }

  lemma ToolsAssociative(a: map<string, Tool>, b: map<string, Tool>, c: map<string, Tool>)
    requires Parsed(a) && Parsed(b) && Parsed(c)
    ensures MergeTools(MergeTools(a, b), c) == MergeTools(a, MergeTools(b, c))
    ensures Parsed(MergeTools(a, b))
  {
    hide MergeTool, WellFormed;
    var left, right := MergeTools(MergeTools(a, b), c), MergeTools(a, MergeTools(b, c));
    assert left.Keys == right.Keys;
    forall n | n in left ensures left[n] == right[n] {
      if n in a && n in b && n in c { ToolAssociative(a[n], b[n], c[n]); }
    }
    forall n | n in MergeTools(a, b) ensures WellFormed(MergeTools(a, b)[n]) {
      if n in a && n in b { MergedIsWellFormed(a[n], b[n]); }
    }
  }

  // ----- stacks of layers -----

  ghost predicate AllParsed(layers: seq<Schema>) {
    forall i :: 0 <= i < |layers| ==> Parsed(layers[i].tools)
  }

  lemma {:induction false} StackParsed(layers: seq<Schema>)
    requires AllParsed(layers)
    ensures Parsed(Stack(layers))
    decreases |layers|
  {
    hide MergeTools, WellFormed;
    if layers != [] {
      var rest, top := layers[..|layers| - 1], layers[|layers| - 1].tools;
      StackParsed(rest);
      ToolsAssociative(Stack(rest), top, top);
    }
  }

  lemma {:induction false} StackConcat(xs: seq<Schema>, ys: seq<Schema>)
    requires AllParsed(xs) && AllParsed(ys)
    ensures Stack(xs + ys) == MergeTools(Stack(xs), Stack(ys))
    decreases |ys|
  {
    if ys == [] {
      assert xs + ys == xs;
      assert MergeTools(Stack(xs), map[]) == Stack(xs);
    } else {
      hide MergeTools, Parsed;
      var rest, top := ys[..|ys| - 1], ys[|ys| - 1].tools;
      assert (xs + ys)[..|xs + ys| - 1] == xs + rest;
      StackConcat(xs, rest);
      StackParsed(xs);
      StackParsed(rest);
      ToolsAssociative(Stack(xs), Stack(rest), top);
    }
  }

  lemma BoundKeys(methods: seq<Method>, root: string)
    ensures Keys(BindMethods(methods, root)) == Keys(methods)
    ensures UniqueKeys(methods) ==> UniqueKeys(BindMethods(methods, root))
  {
    assert forall i :: 0 <= i < |methods| ==> BindMethods(methods, root)[i].Key() == methods[i].Key();
  }

  lemma BoundIndex(methods: seq<Method>, root: string)
    requires UniqueKeys(methods)
    ensures Index(BindMethods(methods, root)) == map k | k in Index(methods) :: Index(methods)[k].(projectRoot := root)
  {
    hide Method.Key, Index;
    var bound := BindMethods(methods, root);
    BoundKeys(methods, root);
    assert Index(bound).Keys == Index(methods).Keys;
    forall k | k in Index(methods) ensures Index(bound)[k] == Index(methods)[k].(projectRoot := root) {
      assert k in Keys(methods);
      var i :| 0 <= i < |methods| && Keys(methods)[i] == k;
      IndexAt(methods, i);
      IndexAt(bound, i);
    }
  }

  /** Binding the root and merging commute. */
  lemma BindMergesMethods(lower: seq<Method>, upper: seq<Method>, root: string)
    requires UniqueKeys(lower) && UniqueKeys(upper)
    ensures BindMethods(MergeMethods(lower, upper), root)
            == MergeMethods(BindMethods(lower, root), BindMethods(upper, root))
  {
    hide MergeMethods, Union, Index, Keys, InOrder, BindMethods, MergeEntry, MergeConfig, Overlay, UniqueKeys;
    var left := BindMethods(MergeMethods(lower, upper), root);
    var right := MergeMethods(BindMethods(lower, root), BindMethods(upper, root));
    MergeIsCombine(lower, upper);
    BoundKeys(lower, root);
    BoundKeys(upper, root);
    BoundKeys(MergeMethods(lower, upper), root);
    MergeIsCombine(BindMethods(lower, root), BindMethods(upper, root));
    BoundIndex(lower, root);
    BoundIndex(upper, root);
    BoundIndex(MergeMethods(lower, upper), root);
    assert Index(left) == Index(right);
    UniqueIsFlat(left);
    UniqueIsFlat(right);
    assert left == InOrder(Index(left), Keys(left));
    assert right == InOrder(Index(right), Keys(right));
  }

  lemma BindMergesTools(a: map<string, Tool>, b: map<string, Tool>, root: string)
    requires Parsed(a) && Parsed(b)
    ensures Bind(MergeTools(a, b), root) == MergeTools(Bind(a, root), Bind(b, root))
  {
    var left, right := Bind(MergeTools(a, b), root), MergeTools(Bind(a, root), Bind(b, root));
    assert left.Keys == right.Keys;
    forall n | n in left ensures left[n] == right[n] {
      if n in a && n in b {
        BindMergesTool(a[n], b[n], root);
      }
    }
  }

  lemma BindMergesTool(a: Tool, b: Tool, root: string)
    requires WellFormed(a) && WellFormed(b)
    ensures BindTool(MergeTool(a, b), root) == MergeTool(BindTool(a, root), BindTool(b, root))
  {
    hide MergeMethods, BindMethods, Union, Overlay, UniqueKeys;
    BindMergesMethods(a.methods, b.methods, root);
  }

  lemma BindTwice(tools: map<string, Tool>, first: string, second: string)
    ensures Bind(Bind(tools, first), second) == Bind(tools, second)
    ensures Parsed(tools) ==> Parsed(Bind(tools, first))
  {
    forall n | n in tools
      ensures BindTool(BindTool(tools[n], first), second) == BindTool(tools[n], second)
      ensures WellFormed(tools[n]) ==> WellFormed(BindTool(tools[n], first))
    {
      var m := tools[n].methods;
      BoundKeys(m, first);
      assert BindMethods(BindMethods(m, first), second) == BindMethods(m, second);
    }
  }

  // ----- defaults -----

  lemma {:induction false} DefaultsFromAnywhere(start: Fields, other: Fields, layers: seq<Schema>)
    ensures StackDefaults(start, layers)
            == Overlay(start, StackDefaults(other, layers), StackDeclared(layers) * DEFAULT_FIELDS)
    decreases |layers|
  {
    hide Overlay;
    var none: set<string> := {};
    if layers == [] {
      assert none * DEFAULT_FIELDS == none;
      OverlayNothing(start, other);
    } else {
      var rest, top := layers[..|layers| - 1], layers[|layers| - 1];
      DefaultsFromAnywhere(start, other, rest);
      OverlayAssociative(start, StackDefaults(other, rest), top.defaults,
                         StackDeclared(rest) * DEFAULT_FIELDS, top.defaultsDeclared * DEFAULT_FIELDS);
      assert StackDeclared(layers) * DEFAULT_FIELDS
             == StackDeclared(rest) * DEFAULT_FIELDS + top.defaultsDeclared * DEFAULT_FIELDS;
    }
  }

  lemma OverlayNothing(a: Fields, b: Fields)
    ensures Overlay(a, b, {}) == a
  {
  }

  lemma {:induction false} DefaultsConcat(start: Fields, xs: seq<Schema>, ys: seq<Schema>)
    ensures StackDefaults(start, xs + ys) == StackDefaults(StackDefaults(start, xs), ys)
    ensures StackDeclared(xs + ys) == StackDeclared(xs) + StackDeclared(ys)
    decreases |ys|
  {
    hide Overlay;
    if ys == [] {
      assert xs + ys == xs;
    } else {
      assert (xs + ys)[..|xs + ys| - 1] == xs + ys[..|ys| - 1];
      DefaultsConcat(start, xs, ys[..|ys| - 1]);
    }
  }

  // ----- regrouping -----

  /** Replacing consecutive layers by their own merge changes nothing: any grouping of the stack yields
      the same schema, project root and defaults included. */
  lemma LayersRegroup(engine: Fields, xs: seq<Schema>, ys: seq<Schema>, zs: seq<Schema>)
    requires ys != [] && AllParsed(xs) && AllParsed(ys) && AllParsed(zs)
    ensures MergeLayers(engine, xs + [MergeLayers(engine, ys)] + zs) == MergeLayers(engine, xs + ys + zs)
  {
    hide Stack, StackDefaults, StackDeclared, Bind, Parsed;
    var m := MergeLayers(engine, ys);
    var grouped, flat := xs + [m] + zs, xs + ys + zs;
    var root := flat[|flat| - 1].projectRoot;
    assert grouped[|grouped| - 1].projectRoot == root;
    StackParsed(ys);
    BindTwice(Stack(ys), m.projectRoot, root);
    RegroupTools(xs, m, zs, root);
    BindThree(xs, ys, zs, root);
    RegroupDefaults(engine, xs, ys, zs, m);
  }

  lemma RegroupTools(xs: seq<Schema>, m: Schema, zs: seq<Schema>, root: string)
    requires AllParsed(xs) && Parsed(m.tools) && AllParsed(zs)
    ensures Bind(Stack(xs + [m] + zs), root)
            == MergeTools(MergeTools(Bind(Stack(xs), root), Bind(m.tools, root)), Bind(Stack(zs), root))
  {
    hide Bind, MergeTools, Stack, Parsed;
    BindThree(xs, [m], zs, root);
    StackOfOne(m);
  }

  lemma StackOfOne(m: Schema)
    ensures Stack([m]) == m.tools
  {
    hide MergeTool;
    assert [m][..0] == [];
    assert MergeTools(map[], m.tools) == m.tools;
  }

  lemma BindThree(xs: seq<Schema>, ys: seq<Schema>, zs: seq<Schema>, root: string)
    requires AllParsed(xs) && AllParsed(ys) && AllParsed(zs)
    ensures Bind(Stack(xs + ys + zs), root)
            == MergeTools(MergeTools(Bind(Stack(xs), root), Bind(Stack(ys), root)), Bind(Stack(zs), root))
  {
    hide Stack, Bind, Parsed, MergeTools;
    StackParsed(xs);
    StackParsed(ys);
    StackParsed(zs);
    StackParsed(xs + ys);
    StackConcat(xs, ys);
    StackConcat(xs + ys, zs);
    BindMergesTools(Stack(xs + ys), Stack(zs), root);
    BindMergesTools(Stack(xs), Stack(ys), root);
  }

  lemma RegroupDefaults(engine: Fields, xs: seq<Schema>, ys: seq<Schema>, zs: seq<Schema>, m: Schema)
    requires m.defaults == StackDefaults(engine, ys) && m.defaultsDeclared == StackDeclared(ys)
    ensures StackDefaults(engine, xs + [m] + zs) == StackDefaults(engine, xs + ys + zs)
    ensures StackDeclared(xs + [m] + zs) == StackDeclared(xs + ys + zs)
  {
    hide Overlay;
    DefaultsConcat(engine, xs, ys);
    DefaultsConcat(engine, xs + ys, zs);
    DefaultsConcat(engine, xs, [m]);
    DefaultsConcat(engine, xs + [m], zs);
    DefaultsFromAnywhere(StackDefaults(engine, xs), engine, ys);
    assert [m][..0] == [];
    assert StackDeclared([m]) == StackDeclared(ys);
  }

  /** An overwritten field has the value of the most specific layer that declares it, also when that value
      is empty. */
  lemma {:induction false} MostSpecificDeclarationWins(engine: Fields, layers: seq<Schema>, i: nat, n: string,
                                                       f: string)
    requires i < |layers| && n in layers[i].tools
    requires f in {"Name", "PreInstall", "PostInstall", "Requires", "MethodPrefer", "MethodOnly", "IsSimple",
                   "DependencyOnly"}
    requires f in layers[i].tools[n].declared
    requires forall j :: i < j < |layers| && n in layers[j].tools ==> f !in layers[j].tools[n].declared
    ensures var merged, declaring := MergeLayers(engine, layers).tools, layers[i].tools[n].fields;
            && n in merged
            && (f in merged[n].fields <==> f in declaring)
            && (f in declaring ==> merged[n].fields[f] == declaring[f])
    decreases |layers|
  {
    hide MergeMethods, Union;
    if i < |layers| - 1 {
      MostSpecificDeclarationWins(engine, layers[..|layers| - 1], i, n, f);
    }
  }
}
