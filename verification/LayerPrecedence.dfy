/**
 Which layer wins: what the merge of a stack of layers takes from which of them, below the level of
 whole tool fields.
 */
module LayerPrecedence {
  import opened Basics
  import opened Layers

  /** The method with a given key, of a given tool. */
  function MethodIn(tools: map<string, Tool>, n: string, key: string): Option<Method> {
    if n in tools && key in Index(tools[n].methods) then Some(Index(tools[n].methods)[key]) else None
  }

  /** In a parsed layer it is the one method of the tool that has the key. */
  lemma MethodInIs(tools: map<string, Tool>, n: string, key: string)
    requires Parsed(tools)
    ensures MethodIn(tools, n, key).Some? <==> n in tools && exists m <- tools[n].methods :: m.Key() == key
    ensures n in tools ==> forall m <- tools[n].methods :: m.Key() == key ==> MethodIn(tools, n, key) == Some(m)
  {
    if n in tools {
      var methods := tools[n].methods;
      forall m <- methods | m.Key() == key ensures MethodIn(tools, n, key) == Some(m) {
        var i :| 0 <= i < |methods| && methods[i] == m;
        IndexAt(methods, i);
      }
      if key in Index(methods) { IndexHolds(methods, key); }
    }
  }

  function Merged(lower: Option<Method>, upper: Option<Method>): Option<Method> {
    if upper.None? then lower else if lower.None? then upper else Some(MergeMethod(lower.value, upper.value))
  }

  lemma ToolMethod(a: Tool, b: Tool, key: string)
    requires WellFormed(a) && WellFormed(b)
    ensures Index(MergeTool(a, b).methods) == Combine(Index(a.methods), Index(b.methods))
  {
    MergeIsCombine(a.methods, b.methods);
  }

  /** One more layer on top: only the method under the same key is merged into. */
  lemma StackMethod(layers: seq<Schema>, n: string, key: string)
    requires layers != [] && AllParsed(layers)
    ensures var below, top := Stack(layers[..|layers| - 1]), layers[|layers| - 1].tools;
            MethodIn(Stack(layers), n, key) == Merged(MethodIn(below, n, key), MethodIn(top, n, key))
  {
    hide Index, MergeMethod, MergeTool, WellFormed;
    var below, top := Stack(layers[..|layers| - 1]), layers[|layers| - 1].tools;
    StackParsed(layers[..|layers| - 1]);
    if n in below && n in top { ToolMethod(below[n], top[n], key); }
  }

  lemma BoundMethod(tools: map<string, Tool>, root: string, n: string, key: string)
    requires Parsed(tools)
    ensures var m := MethodIn(tools, n, key);
            MethodIn(Bind(tools, root), n, key) == if m.Some? then Some(m.value.(projectRoot := root)) else None
  {
    hide Index, BindMethods;
    if n in tools { BoundIndex(tools[n].methods, root); }
  }

  // ----- what a layer says about a method -----

  function At(layer: Schema, n: string, key: string): Option<Method> {
    MethodIn(layer.tools, n, key)
  }

  predicate SetsKey(m: Option<Method>, k: string) {
    m.Some? && k in m.value.config
  }

  predicate SetsOverride(m: Option<Method>, entry: string) {
    SetsKey(m, "pkg_overrides") && m.value.config["pkg_overrides"].Table?
    && entry in m.value.config["pkg_overrides"].entries
  }

  predicate Declares(m: Option<Method>, f: string) {
    m.Some? && f in m.value.declared
  }

  predicate Guards(m: Option<Method>) {
    m.Some? && m.value.Guarded()
  }

  lemma {:induction false} StackKey(layers: seq<Schema>, i: nat, n: string, key: string, k: string)
    requires AllParsed(layers) && i < |layers| && k != "pkg_overrides" && SetsKey(At(layers[i], n, key), k)
    requires forall j :: i < j < |layers| ==> !SetsKey(At(layers[j], n, key), k)
    ensures var m := MethodIn(Stack(layers), n, key);
            SetsKey(m, k) && m.value.config[k] == At(layers[i], n, key).value.config[k]
    decreases |layers|
  {
    hide Stack, MethodIn;
    StackMethod(layers, n, key);
    if i < |layers| - 1 {
      StackKey(layers[..|layers| - 1], i, n, key, k);
    }
  }

  lemma {:induction false} StackOverride(layers: seq<Schema>, i: nat, n: string, key: string, entry: string)
    requires AllParsed(layers) && i < |layers| && SetsOverride(At(layers[i], n, key), entry)
    requires forall j :: i < j < |layers| ==> !SetsOverride(At(layers[j], n, key), entry)
    ensures var m := MethodIn(Stack(layers), n, key);
            && SetsOverride(m, entry)
            && m.value.config["pkg_overrides"].entries[entry]
               == At(layers[i], n, key).value.config["pkg_overrides"].entries[entry]
    decreases |layers|
  {
    hide Stack, MethodIn;
    StackMethod(layers, n, key);
    TopIsTable(layers, n, key);
    if i < |layers| - 1 {
      StackOverride(layers[..|layers| - 1], i, n, key, entry);
    } else {
      BelowIsTable(layers[..|layers| - 1], n, key);
    }
  }

  lemma TopIsTable(layers: seq<Schema>, n: string, key: string)
    requires layers != [] && AllParsed(layers)
    ensures var m := At(layers[|layers| - 1], n, key); m.Some? ==> OverridesAreTable(m.value.config)
  {
    hide Index;
    var top := layers[|layers| - 1].tools;
    if n in top && key in Index(top[n].methods) { IndexHolds(top[n].methods, key); }
  }

  lemma BelowIsTable(layers: seq<Schema>, n: string, key: string)
    requires AllParsed(layers)
    ensures var m := MethodIn(Stack(layers), n, key); m.Some? ==> OverridesAreTable(m.value.config)
  {
    hide Index;
    StackParsed(layers);
    var tools := Stack(layers);
    if n in tools && key in Index(tools[n].methods) { IndexHolds(tools[n].methods, key); }
  }

  lemma {:induction false} StackField(layers: seq<Schema>, i: nat, n: string, key: string, f: string)
    requires AllParsed(layers) && i < |layers| && f in Atomic() && Declares(At(layers[i], n, key), f)
    requires forall j :: i < j < |layers| ==> !Declares(At(layers[j], n, key), f)
    ensures var m, declaring := MethodIn(Stack(layers), n, key), At(layers[i], n, key).value.fields;
            && Declares(m, f) && (f in m.value.fields <==> f in declaring)
            && (f in declaring ==> m.value.fields[f] == declaring[f])
    decreases |layers|
  {
    hide Stack, MethodIn;
    StackMethod(layers, n, key);
    if i < |layers| - 1 {
      StackField(layers[..|layers| - 1], i, n, key, f);
    }
  }

  lemma {:induction false} StackGuard(layers: seq<Schema>, i: nat, n: string, key: string)
    requires AllParsed(layers) && i < |layers| && Guards(At(layers[i], n, key))
    requires forall j :: i < j < |layers| ==> !Guards(At(layers[j], n, key))
    ensures var m := MethodIn(Stack(layers), n, key); m.Some? && m.value.guard == At(layers[i], n, key).value.guard
    decreases |layers|
  {
    hide Stack, MethodIn;
    StackMethod(layers, n, key);
    if i < |layers| - 1 {
      StackGuard(layers[..|layers| - 1], i, n, key);
    }
  }

  lemma {:induction false} StackIdentity(layers: seq<Schema>, i: nat, n: string, key: string)
    requires AllParsed(layers) && i < |layers| && At(layers[i], n, key).Some?
    requires forall j :: i < j < |layers| ==> At(layers[j], n, key).None?
    ensures var m, top := MethodIn(Stack(layers), n, key), At(layers[i], n, key).value;
            m.Some? && SameIdentity(m.value, top)
    decreases |layers|
  {
    hide Stack, MethodIn;
    StackMethod(layers, n, key);
    if i < |layers| - 1 {
      StackIdentity(layers[..|layers| - 1], i, n, key);
    }
  }

  /** What no layer declares stays with the method as the least specific layer gave it. */
  lemma {:induction false} StackRuntime(layers: seq<Schema>, i: nat, n: string, key: string)
    requires AllParsed(layers) && i < |layers| && At(layers[i], n, key).Some?
    requires forall j :: 0 <= j < i ==> At(layers[j], n, key).None?
    ensures var m := MethodIn(Stack(layers), n, key); m.Some? && m.value.runtime == At(layers[i], n, key).value.runtime
    decreases |layers|
  {
    hide Stack, MethodIn;
    StackMethod(layers, n, key);
    var rest := layers[..|layers| - 1];
    if i < |rest| {
      StackRuntime(rest, i, n, key);
    } else {
      NobodyHas(rest, n, key);
    }
  }

  lemma {:induction false} NobodyHas(layers: seq<Schema>, n: string, key: string)
    requires AllParsed(layers) && forall j :: 0 <= j < |layers| ==> At(layers[j], n, key).None?
    ensures MethodIn(Stack(layers), n, key).None?
    decreases |layers|
  {
    hide MethodIn;
    if layers == [] {
      NoMethod(n, key);
    } else {
      StackMethod(layers, n, key);
      NobodyHas(layers[..|layers| - 1], n, key);
    }
  }

  /** What a method is, and what it was locked to. */
  predicate SameIdentity(m: Method, other: Method) {
    m.kind == other.kind && m.label_ == other.label_ && m.locked == other.locked && m.err == other.err
  }

  /** Nothing is made up: a method, a key, an override entry or a guard comes from some layer. */
  lemma {:induction false} StackComesFrom(layers: seq<Schema>, n: string, key: string)
    requires AllParsed(layers)
    ensures var m := MethodIn(Stack(layers), n, key);
            && (m.Some? ==> exists i :: 0 <= i < |layers| && At(layers[i], n, key).Some?)
            && (forall k :: SetsKey(m, k) ==> exists i :: 0 <= i < |layers| && SetsKey(At(layers[i], n, key), k))
            && (forall e :: SetsOverride(m, e) ==>
                  exists i :: 0 <= i < |layers| && SetsOverride(At(layers[i], n, key), e))
            && (m.Some? && m.value.guard != Nil ==> exists i :: 0 <= i < |layers| && Guards(At(layers[i], n, key)))
    decreases |layers|
  {
    hide MethodIn;
    if layers == [] {
      NoMethod(n, key);
    } else {
      hide Stack;
      var rest := layers[..|layers| - 1];
      StackMethod(layers, n, key);
      StackComesFrom(rest, n, key);
      var m, below := MethodIn(Stack(layers), n, key), MethodIn(Stack(rest), n, key);
      var top := At(layers[|layers| - 1], n, key);
      assert forall i :: 0 <= i < |rest| ==> rest[i] == layers[i];
      assert forall k :: SetsKey(m, k) ==> SetsKey(below, k) || SetsKey(top, k);
      assert forall e :: SetsOverride(m, e) ==> SetsOverride(below, e) || SetsOverride(top, e);
    }
  }

  lemma NoMethod(n: string, key: string)
    ensures MethodIn(Stack([]), n, key).None?
  {
  }

  // ----- the merged schema -----

  lemma MergedMethod(engine: Fields, layers: seq<Schema>, n: string, key: string)
    requires layers != [] && AllParsed(layers)
    ensures var m := MethodIn(Stack(layers), n, key);
            At(MergeLayers(engine, layers), n, key)
            == if m.Some? then Some(m.value.(projectRoot := layers[|layers| - 1].projectRoot)) else None
  {
    hide Stack, StackDefaults, StackDeclared, Bind, MethodIn;
    StackParsed(layers);
    BoundMethod(Stack(layers), layers[|layers| - 1].projectRoot, n, key);
  }

  /** A configuration key of a method has the value of the most specific layer whose method sets it, however
      many layers set it. */
  lemma MostSpecificKeyWins(engine: Fields, layers: seq<Schema>, i: nat, n: string, key: string, k: string)
    requires AllParsed(layers) && i < |layers| && k != "pkg_overrides" && SetsKey(At(layers[i], n, key), k)
    requires forall j :: i < j < |layers| ==> !SetsKey(At(layers[j], n, key), k)
    ensures var m := At(MergeLayers(engine, layers), n, key);
            SetsKey(m, k) && m.value.config[k] == At(layers[i], n, key).value.config[k]
  {
    hide MethodIn;
    StackKey(layers, i, n, key, k);
    MergedMethod(engine, layers, n, key);
  }

  /** The overrides of a package are merged entry by entry, the most specific layer winning for each. */
  lemma MostSpecificOverrideWins(engine: Fields, layers: seq<Schema>, i: nat, n: string, key: string, entry: string)
    requires AllParsed(layers) && i < |layers| && SetsOverride(At(layers[i], n, key), entry)
    requires forall j :: i < j < |layers| ==> !SetsOverride(At(layers[j], n, key), entry)
    ensures var m := At(MergeLayers(engine, layers), n, key);
            && SetsOverride(m, entry)
            && m.value.config["pkg_overrides"].entries[entry]
               == At(layers[i], n, key).value.config["pkg_overrides"].entries[entry]
  {
    hide MethodIn;
    StackOverride(layers, i, n, key, entry);
    MergedMethod(engine, layers, n, key);
  }

  /** A method field that layers replace as a whole has the value of the most specific layer that declares
      it, also when that value is empty. */
  lemma MostSpecificFieldWins(engine: Fields, layers: seq<Schema>, i: nat, n: string, key: string, f: string)
    requires f in {"Inferred", "ArchMap", "OSMap", "Requires", "Sources", "Distributions", "PreInstall", "PostInstall",
                   "SecretRef", "ChecksumSecretRef", "SignatureSecretRef"}
    requires AllParsed(layers) && i < |layers| && Declares(At(layers[i], n, key), f)
    requires forall j :: i < j < |layers| ==> !Declares(At(layers[j], n, key), f)
    ensures var m, declaring := At(MergeLayers(engine, layers), n, key), At(layers[i], n, key).value.fields;
            && m.Some? && (f in m.value.fields <==> f in declaring)
            && (f in declaring ==> m.value.fields[f] == declaring[f])
  {
    hide MethodIn;
    StackField(layers, i, n, key, f);
    MergedMethod(engine, layers, n, key);
  }

  /** The guard of a method is that of the most specific layer that has one or says that there is none. */
  lemma MostSpecificGuardWins(engine: Fields, layers: seq<Schema>, i: nat, n: string, key: string)
    requires AllParsed(layers) && i < |layers| && Guards(At(layers[i], n, key))
    requires forall j :: i < j < |layers| ==> !Guards(At(layers[j], n, key))
    ensures var m := At(MergeLayers(engine, layers), n, key);
            m.Some? && m.value.guard == At(layers[i], n, key).value.guard
  {
    hide MethodIn;
    StackGuard(layers, i, n, key);
    MergedMethod(engine, layers, n, key);
  }

  /** A method's identity and locked revision are those of the most specific layer that has the method; it
      resolves against the root of the most specific layer of all. */
  lemma MostSpecificIdentityWins(engine: Fields, layers: seq<Schema>, i: nat, n: string, key: string)
    requires AllParsed(layers) && i < |layers| && At(layers[i], n, key).Some?
    requires forall j :: i < j < |layers| ==> At(layers[j], n, key).None?
    ensures var m := At(MergeLayers(engine, layers), n, key);
            && m.Some? && SameIdentity(m.value, At(layers[i], n, key).value)
            && m.value.projectRoot == layers[|layers| - 1].projectRoot
  {
    hide MethodIn;
    StackIdentity(layers, i, n, key);
    MergedMethod(engine, layers, n, key);
  }

  lemma LeastSpecificRuntimeStays(engine: Fields, layers: seq<Schema>, i: nat, n: string, key: string)
    requires AllParsed(layers) && i < |layers| && At(layers[i], n, key).Some?
    requires forall j :: 0 <= j < i ==> At(layers[j], n, key).None?
    ensures var m := At(MergeLayers(engine, layers), n, key);
            m.Some? && m.value.runtime == At(layers[i], n, key).value.runtime
  {
    hide MethodIn;
    StackRuntime(layers, i, n, key);
    MergedMethod(engine, layers, n, key);
  }

  /** And nothing is made up: what the merged method has, some layer's method has. */
  lemma MergedComesFrom(engine: Fields, layers: seq<Schema>, n: string, key: string)
    requires layers != [] && AllParsed(layers)
    ensures var m := At(MergeLayers(engine, layers), n, key);
            && (m.Some? ==> exists i :: 0 <= i < |layers| && At(layers[i], n, key).Some?)
            && (forall k :: SetsKey(m, k) ==> exists i :: 0 <= i < |layers| && SetsKey(At(layers[i], n, key), k))
            && (forall e :: SetsOverride(m, e) ==>
                  exists i :: 0 <= i < |layers| && SetsOverride(At(layers[i], n, key), e))
            && (m.Some? && m.value.guard != Nil ==> exists i :: 0 <= i < |layers| && Guards(At(layers[i], n, key)))
  {
    hide MethodIn;
    StackComesFrom(layers, n, key);
    MergedMethod(engine, layers, n, key);
    var m, s := At(MergeLayers(engine, layers), n, key), MethodIn(Stack(layers), n, key);
    assert forall k :: SetsKey(m, k) ==> SetsKey(s, k);
    assert forall e :: SetsOverride(m, e) ==> SetsOverride(s, e);
  }

  // ----- tools and defaults -----

  predicate Conditions(layer: Schema, n: string, c: string) {
    n in layer.tools && c in layer.tools[n].requiresWhen
  }

  /** The condition on one requirement is that of the most specific layer that gives one. */
  lemma {:induction false} StackCondition(layers: seq<Schema>, i: nat, n: string, c: string)
    requires AllParsed(layers) && i < |layers| && Conditions(layers[i], n, c)
    requires forall j :: i < j < |layers| ==> !Conditions(layers[j], n, c)
    ensures var tools := Stack(layers);
            && n in tools && c in tools[n].requiresWhen
            && tools[n].requiresWhen[c] == layers[i].tools[n].requiresWhen[c]
    decreases |layers|
  {
    hide MergeMethods, Union, Overlay, UniqueKeys, OverridesAreTable;
    if i < |layers| - 1 {
      StackCondition(layers[..|layers| - 1], i, n, c);
    }
  }

  lemma MostSpecificConditionWins(engine: Fields, layers: seq<Schema>, i: nat, n: string, c: string)
    requires AllParsed(layers) && i < |layers| && Conditions(layers[i], n, c)
    requires forall j :: i < j < |layers| ==> !Conditions(layers[j], n, c)
    ensures var merged := MergeLayers(engine, layers);
            Conditions(merged, n, c) && merged.tools[n].requiresWhen[c] == layers[i].tools[n].requiresWhen[c]
  {
    hide Stack, StackDefaults, StackDeclared, BindMethods;
    StackCondition(layers, i, n, c);
  }

  predicate Tags(layer: Schema, n: string, tag: string) {
    n in layer.tools && tag in layer.tools[n].tags
  }

  ghost predicate SomeHas(layers: seq<Schema>, n: string) {
    exists i :: 0 <= i < |layers| && n in layers[i].tools
  }

  ghost predicate SomeTags(layers: seq<Schema>, n: string, tag: string) {
    exists i :: 0 <= i < |layers| && Tags(layers[i], n, tag)
  }

  lemma SomeOrTop(layers: seq<Schema>, n: string)
    requires layers != []
    ensures var rest, top := layers[..|layers| - 1], layers[|layers| - 1];
            && (SomeHas(layers, n) <==> SomeHas(rest, n) || n in top.tools)
            && forall tag :: SomeTags(layers, n, tag) <==> SomeTags(rest, n, tag) || Tags(top, n, tag)
  {
    var rest := layers[..|layers| - 1];
    assert forall i :: 0 <= i < |rest| ==> rest[i] == layers[i];
  }

  lemma {:induction false} StackTags(layers: seq<Schema>, n: string)
    requires AllParsed(layers)
    ensures n in Stack(layers) <==> SomeHas(layers, n)
    ensures forall tag :: n in Stack(layers) && tag in Stack(layers)[n].tags <==> SomeTags(layers, n, tag)
    decreases |layers|
  {
    if layers != [] {
      hide Stack, Tags, SomeHas, SomeTags;
      StackTags(layers[..|layers| - 1], n);
      TopTags(layers, n);
      SomeOrTop(layers, n);
    }
  }

  lemma TopTags(layers: seq<Schema>, n: string)
    requires layers != [] && AllParsed(layers)
    ensures var below, top, tools := Stack(layers[..|layers| - 1]), layers[|layers| - 1], Stack(layers);
            && (n in tools <==> n in below || n in top.tools)
            && forall tag ::
                 n in tools && tag in tools[n].tags
                 <==> (n in below && tag in below[n].tags) || Tags(top, n, tag)
  {
    hide MergeTool, WellFormed;
    var below, top := Stack(layers[..|layers| - 1]), layers[|layers| - 1];
    StackParsed(layers[..|layers| - 1]);
    if n in below && n in top.tools { MergedTags(below[n], top.tools[n]); }
  }

  lemma MergedTags(a: Tool, b: Tool)
    requires WellFormed(a) && WellFormed(b)
    ensures forall tag :: tag in MergeTool(a, b).tags <==> tag in a.tags || tag in b.tags
  {
    hide MergeMethods, Union, Overlay, UniqueKeys, OverridesAreTable;
    UnionHolds(a.tags, b.tags);
  }

  lemma UnionHolds(a: seq<string>, b: seq<string>)
    ensures forall x :: x in Union(a, b) <==> x in a || x in b
  {
    UnionContains(a, b);
    forall x ensures x in Union(a, b) <==> x in a || x in b {
      assert x in Elements(Union(a, b)) <==> x in Elements(a) + Elements(b);
    }
  }

  /** The merged schema has exactly the tools of the layers, each with exactly the tags that some layer
      gives it. */
  lemma MergedTools(engine: Fields, layers: seq<Schema>, n: string)
    requires AllParsed(layers)
    ensures var merged := MergeLayers(engine, layers);
            && (n in merged.tools <==> SomeHas(layers, n))
            && (forall tag :: Tags(merged, n, tag) <==> SomeTags(layers, n, tag))
  {
    hide Stack, StackDefaults, StackDeclared, BindMethods;
    if layers != [] { StackTags(layers, n); }
  }

  lemma {:induction false} DefaultComesFrom(engine: Fields, layers: seq<Schema>, i: nat, f: string)
    requires f in DEFAULT_FIELDS && i <= |layers| && (i < |layers| ==> f in layers[i].defaultsDeclared)
    requires forall j :: (if i < |layers| then i + 1 else 0) <= j < |layers| ==> f !in layers[j].defaultsDeclared
    ensures SameField(StackDefaults(engine, layers), if i < |layers| then layers[i].defaults else engine, f)
    decreases |layers|
  {
    if layers != [] && i != |layers| - 1 {
      DefaultComesFrom(engine, layers[..|layers| - 1], if i < |layers| then i else |layers| - 1, f);
    }
  }

  /** A default has the value of the most specific layer that declares it, also when that value is empty. */
  lemma MostSpecificDefaultWins(engine: Fields, layers: seq<Schema>, i: nat, f: string)
    requires f in {"Manager", "AurHelper", "MethodOrder", "ArchMap", "OSMap"} && i < |layers|
             && f in layers[i].defaultsDeclared
    requires forall j :: i < j < |layers| ==> f !in layers[j].defaultsDeclared
    ensures SameField(MergeLayers(engine, layers).defaults, layers[i].defaults, f)
  {
    hide Stack;
    DefaultComesFrom(engine, layers, i, f);
  }

  /** A default that no layer declares is the engine's. The other settings of a merged schema are those of the
      most specific layer. */
  lemma UndeclaredDefaults(engine: Fields, layers: seq<Schema>, f: string)
    requires f in DEFAULT_FIELDS && forall i :: 0 <= i < |layers| ==> f !in layers[i].defaultsDeclared
    ensures var merged := MergeLayers(engine, layers);
            && SameField(merged.defaults, engine, f)
            && (layers != [] ==>
                 var top := layers[|layers| - 1];
                 && merged.version == top.version && merged.allowNewTools == top.allowNewTools
                 && merged.projectRoot == top.projectRoot)
            && (layers == [] ==> merged.version == 1 && merged.tools == map[] && !merged.allowNewTools)
  {
    hide Stack;
    DefaultComesFrom(engine, layers, |layers|, f);
  }

  predicate SameField(a: Fields, b: Fields, f: string) {
    (f in a <==> f in b) && (f in a ==> a[f] == b[f])
  }
}
