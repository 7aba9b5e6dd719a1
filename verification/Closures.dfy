/**
 Which tools a command works on: the selected roots and everything they require.
 */
module Closures {
  import opened Basics
  import opened Strings

  type Name = string

  datatype Tool = Tool(needs: seq<Name>, methods: seq<seq<Name>>, tags: seq<string>, dependencyOnly: bool, payload: int)

  type Tools = map<Name, Tool>

  type Graph = map<Name, seq<Name>>

  function Flatten(methods: seq<seq<Name>>): seq<Name> {
    if methods == [] then [] else methods[0] + Flatten(methods[1..])
  }

  /** Requirements of a tool and of all its methods. */
  function AllEdges(tools: Tools): Graph {
    map n | n in tools :: tools[n].needs + Flatten(tools[n].methods)
  }

  function NeedEdges(tools: Tools): Graph {
    map n | n in tools :: tools[n].needs
  }

  // ----- reachability -----

  /** A chain of declared tools, each requiring the next. */
  predicate Path(g: Graph, path: seq<Name>) {
    && path != []
    && (forall i :: 0 <= i < |path| ==> path[i] in g)
    && (forall i :: 0 < i < |path| ==> path[i] in g[path[i - 1]])
  }

  ghost predicate Reachable(g: Graph, roots: set<Name>, n: Name) {
    exists path :: Path(g, path) && path[0] in roots && path[|path| - 1] == n
  }

  /** What a worklist keeps: what is done is reachable, what waits follows from it, and every declared
      root and requirement is done or waits. */
  ghost predicate Worklist(g: Graph, roots: set<Name>, done: set<Name>, queue: seq<Name>) {
    && done <= g.Keys
    && (forall n :: n in done ==> Reachable(g, roots, n))
    && (forall n :: n in queue ==> n in roots || exists p :: p in done && n in g[p])
    && (forall n :: n in roots && n in g ==> n in done || n in queue)
    && (forall p, n :: p in done && n in g[p] && n in g ==> n in done || n in queue)
  }

  lemma ReachableStep(g: Graph, roots: set<Name>, p: Name, n: Name)
    requires Reachable(g, roots, p) && p in g && n in g[p] && n in g
    ensures Reachable(g, roots, n)
  {
    var path :| Path(g, path) && path[0] in roots && path[|path| - 1] == p;
    var longer := path + [n];
    assert Path(g, longer) && longer[0] in roots && longer[|longer| - 1] == n;
  }

  lemma RootReachable(g: Graph, roots: set<Name>, n: Name)
    requires n in roots && n in g
    ensures Reachable(g, roots, n)
  {
    assert Path(g, [n]) && [n][0] in roots && [n][|[n]| - 1] == n;
  }

  lemma WorklistStart(g: Graph, roots: set<Name>, queue: seq<Name>)
    requires forall n :: n in queue <==> n in roots
    ensures Worklist(g, roots, {}, queue)
  {
  }

  lemma WorklistSkip(g: Graph, roots: set<Name>, done: set<Name>, queue: seq<Name>)
    requires Worklist(g, roots, done, queue) && queue != []
    requires queue[0] in done || queue[0] !in g
    ensures Worklist(g, roots, done, queue[1..])
  {
    hide Reachable;
    assert queue == [queue[0]] + queue[1..];
  }

  lemma WorklistVisit(g: Graph, roots: set<Name>, done: set<Name>, queue: seq<Name>)
    requires Worklist(g, roots, done, queue) && queue != [] && queue[0] in g
    ensures Worklist(g, roots, done + {queue[0]}, queue[1..] + g[queue[0]])
  {
    hide Reachable;
    var n := queue[0];
    assert queue == [n] + queue[1..];
    if n in roots {
      RootReachable(g, roots, n);
    } else {
      var p :| p in done && n in g[p];
      ReachableStep(g, roots, p, n);
    }
    forall x | x in queue[1..] + g[n] ensures x in roots || exists p :: p in done + {n} && x in g[p] {
      if x in g[n] {
        assert n in done + {n};
      } else if x !in roots {
        assert x in queue;
        var p :| p in done && x in g[p];
        assert p in done + {n};
      }
    }
  }

  lemma {:induction false} DoneReachesAll(g: Graph, roots: set<Name>, done: set<Name>, path: seq<Name>)
    requires Worklist(g, roots, done, []) && Path(g, path) && path[0] in roots
    ensures path[|path| - 1] in done
    decreases |path|
  {
    if |path| > 1 {
      var shorter := path[..|path| - 1];
      assert Path(g, shorter) && shorter[0] in roots;
      DoneReachesAll(g, roots, done, shorter);
    }
  }

  /** An empty worklist is the closure. */
  lemma WorklistDone(g: Graph, roots: set<Name>, done: set<Name>)
    requires Worklist(g, roots, done, [])
    ensures forall n :: n in done <==> Reachable(g, roots, n)
  {
    forall n | Reachable(g, roots, n) ensures n in done {
      var path :| Path(g, path) && path[0] in roots && path[|path| - 1] == n;
      DoneReachesAll(g, roots, done, path);
    }
  }

  // ----- filters -----

  predicate EqualFold(a: string, b: string) { Lower(a) == Lower(b) }

  /** The names given to `--skip`. */
  function Skipped(skip: string): set<Name> {
    set part | part in Split(skip, ',') :: TrimSpace(part)
  }

  /** A root: not skipped, not only a dependency unless asked for by name, and within the filters. */
  predicate Chosen(name: Name, tool: Tool, only: string, skip: string, profile: string) {
    && name !in Skipped(skip)
    && (tool.dependencyOnly ==> only == name)
    && (only != "" ==> name == only)
    && (profile != "" ==> exists tag :: tag in tool.tags && EqualFold(tag, profile))
  }

  function Roots(tools: Tools, only: string, skip: string, profile: string): set<Name> {
    set n | n in tools && Chosen(n, tools[n], only, skip, profile)
  }

  /** A tool as a filtered run sees it: one asked for by name is not only a dependency. */
  function Seen(tools: Tools, only: string, n: Name): Tool
    requires n in tools
  {
    if only == n && tools[n].dependencyOnly then tools[n].(dependencyOnly := false) else tools[n]
  }

  /** What filtering promises. */
  ghost predicate Filtered(tools: Tools, only: string, skip: string, profile: string, result: Tools) {
    && (forall n :: n in result <==> Reachable(AllEdges(tools), Roots(tools, only, skip, profile), n))
    && (forall n :: n in result ==> n in tools && result[n] == Seen(tools, only, n))
  }

  method MatchesProfile(tags: seq<string>, profile: string) returns (matched: bool)
    ensures matched <==> exists tag :: tag in tags && EqualFold(tag, profile)
  {
    for i := 0 to |tags|
      invariant forall j :: 0 <= j < i ==> !EqualFold(tags[j], profile)
    {
      if EqualFold(tags[i], profile) {
        return true;
      }
    }
    return false;
  }

  method SelectRoots(tools: Tools, only: string, skip: string, profile: string) returns (roots: set<Name>)
    ensures roots == Roots(tools, only, skip, profile)
  {
    hide EqualFold, Skipped;
    var skipSet := Skipped(skip);
    roots := {};
    var pending := tools.Keys;
    while pending != {}
      invariant pending <= tools.Keys
      invariant roots == set n | n in tools && n !in pending && Chosen(n, tools[n], only, skip, profile)
    {
      var name :| name in pending;
      pending := pending - {name};
      var tool := tools[name];
      if name in skipSet || (tool.dependencyOnly && only != name) || (only != "" && name != only) {
        continue;
      }
      if profile != "" {
        var matched := MatchesProfile(tool.tags, profile);
        if !matched {
          continue;
        }
      }
      roots := roots + {name};
    }
  }

  /** Some order of a set: what ranging over a map yields. */
  method Listed(names: set<Name>) returns (queue: seq<Name>)
    ensures forall n :: n in queue <==> n in names
  {
    queue := [];
    var pending := names;
    while pending != {}
      invariant pending <= names
      invariant forall n :: n in queue <==> n in names - pending
    {
      var n :| n in pending;
      queue := queue + [n];
      pending := pending - {n};
    }
  }

  method Appended(queue: seq<Name>, methods: seq<seq<Name>>) returns (longer: seq<Name>)
    ensures longer == queue + Flatten(methods)
  {
    longer := queue;
    for i := 0 to |methods|
      invariant longer + Flatten(methods[i..]) == queue + Flatten(methods)
    {
      assert methods[i..][1..] == methods[i + 1..];
      Regroup(longer, methods[i], Flatten(methods[i + 1..]));
      longer := longer + methods[i];
    }
  }

  /** The worklist over tool and method requirements, from any queue that starts one. */
  method Drain(tools: Tools, only: string, ghost roots: set<Name>, start: seq<Name>) returns (filtered: Tools)
    requires Worklist(AllEdges(tools), roots, {}, start)
    ensures Worklist(AllEdges(tools), roots, filtered.Keys, [])
    ensures filtered.Keys <= tools.Keys && filtered == SeenAll(tools, only, filtered.Keys)
  {
    hide *;
    ghost var g := AllEdges(tools);
    var queue := start;
    SeenMore(tools, only, {}, "");
    filtered := map[];
    ghost var done := {};
    var visited: set<Name> := {};
    while |queue| > 0
      invariant Worklist(g, roots, done, queue)
      invariant done == visited * tools.Keys
      invariant done <= tools.Keys && filtered == SeenAll(tools, only, done)
      decreases |tools.Keys - done|, |queue|
    {
      var name := queue[0];
      EdgesOf(tools, name);
      if name in visited {
        WorklistSkip(g, roots, done, queue);
        queue := queue[1..];
        continue;
      }
      Fewer(tools.Keys, visited, name);
      visited := visited + {name};
      if name in tools {
        WorklistVisit(g, roots, done, queue);
        Fewer(tools.Keys, done, name);
        SeenMore(tools, only, done, name);
        var t := tools[name];
        if only == name && t.dependencyOnly {
          t := t.(dependencyOnly := false);
        }
        filtered := filtered[name := t];
        done := done + {name};
        Regroup(queue[1..], t.needs, Flatten(t.methods));
        queue := Appended(queue[1..] + t.needs, t.methods);
      } else {
        WorklistSkip(g, roots, done, queue);
        queue := queue[1..];
      }
    }
    assert queue == [];
    SeenMore(tools, only, done, "");
  }

  /** `filterTools` ends on any graph, cyclic or not, and finds exactly the declared tools reachable from the
      chosen roots. */
  method FilterTools(tools: Tools, only: string, skip: string, profile: string) returns (filtered: Tools)
    ensures Filtered(tools, only, skip, profile, filtered)
  {
    hide Reachable, Roots, Worklist, AllEdges, SeenAll, Seen;
    var roots := SelectRoots(tools, only, skip, profile);
    var queue := Listed(roots);
    WorklistStart(AllEdges(tools), roots, queue);
    filtered := Drain(tools, only, roots, queue);
    WorklistDone(AllEdges(tools), roots, filtered.Keys);
    SeenMore(tools, only, filtered.Keys, "");
  }

  /** The tools of a closed set, as a filtered run sees them. */
  function SeenAll(tools: Tools, only: string, done: set<Name>): Tools
    requires done <= tools.Keys
  {
    map n | n in done :: Seen(tools, only, n)
  }

  lemma SeenMore(tools: Tools, only: string, done: set<Name>, name: Name)
    requires done <= tools.Keys
    ensures name in tools ==>
      SeenAll(tools, only, done + {name})
      == SeenAll(tools, only, done)[name := if only == name && tools[name].dependencyOnly
                                            then tools[name].(dependencyOnly := false) else tools[name]]
    ensures SeenAll(tools, only, {}) == map[]
    ensures SeenAll(tools, only, done).Keys == done
    ensures forall n :: n in done ==> SeenAll(tools, only, done)[n] == Seen(tools, only, n)
  {
  }

  lemma EdgesOf(tools: Tools, name: Name)
    ensures AllEdges(tools).Keys == tools.Keys == NeedEdges(tools).Keys
    ensures name in tools ==>
              AllEdges(tools)[name] == tools[name].needs + Flatten(tools[name].methods)
              && NeedEdges(tools)[name] == tools[name].needs
  {
  }

  lemma Fewer(all: set<Name>, done: set<Name>, n: Name)
    ensures (done + {n}) * all == if n in all then (done * all) + {n} else done * all
    ensures n in all && n !in done ==> |all - (done + {n})| < |all - done|
  {
    if n in all && n !in done { assert all - done == (all - (done + {n})) + {n}; }
  }

  function PlainRoots(tools: Tools): set<Name> {
    set n | n in tools && !tools[n].dependencyOnly
  }

  /** The same worklist over tool requirements alone; what it holds already counts as visited. */
  method DrainRoots(tools: Tools, ghost roots: set<Name>, start: seq<Name>) returns (out: Tools)
    requires Worklist(NeedEdges(tools), roots, {}, start)
    ensures Worklist(NeedEdges(tools), roots, out.Keys, [])
    ensures out == Part(tools, out.Keys)
  {
    hide *;
    ghost var g := NeedEdges(tools);
    var queue := start;
    PartMore(tools, {}, "");
    out := map[];
    ghost var done := {};
    while |queue| > 0
      invariant Worklist(g, roots, done, queue) && out == Part(tools, done) && out.Keys == done
      decreases |tools.Keys - done|, |queue|
    {
      var name := queue[0];
      EdgesOf(tools, name);
      if name in out || name !in tools {
        WorklistSkip(g, roots, done, queue);
        queue := queue[1..];
        continue;
      }
      WorklistVisit(g, roots, done, queue);
      Fewer(tools.Keys, done, name);
      PartMore(tools, done, name);
      out := out[name := tools[name]];
      done := done + {name};
      queue := queue[1..] + tools[name].needs;
    }
    assert queue == [];
  }

  /** The tools of a map under the given names. */
  function Part(tools: Tools, names: set<Name>): Tools {
    map n | n in names && n in tools :: tools[n]
  }

  lemma PartMore(tools: Tools, done: set<Name>, name: Name)
    ensures Part(tools, {}) == map[]
    ensures name in tools ==> Part(tools, done + {name}) == Part(tools, done)[name := tools[name]]
    ensures done <= tools.Keys ==> Part(tools, done).Keys == done
  {
  }

  /** `rootTools`: the tools reachable from proper roots over tool requirements alone. */
  method RootTools(tools: Tools) returns (out: Tools)
    ensures forall n :: n in out <==> Reachable(NeedEdges(tools), PlainRoots(tools), n)
    ensures forall n :: n in out ==> n in tools && out[n] == tools[n]
  {
    hide Reachable, Worklist, NeedEdges;
    var roots := set n | n in tools && !tools[n].dependencyOnly;
    assert roots == PlainRoots(tools);
    var queue := Listed(roots);
    WorklistStart(NeedEdges(tools), roots, queue);
    out := DrainRoots(tools, roots, queue);
    WorklistDone(NeedEdges(tools), roots, out.Keys);
  }

  // ----- without filters -----

  lemma NobodySkipped()
    ensures Skipped("") == {""}
  {
    assert Split("", ',') == [""] && TrimSpace("") == "";
  }

  lemma RootsOfAll(tools: Tools)
    ensures Roots(tools, "", "", "") == PlainRoots(tools) - {""}
  {
    NobodySkipped();
  }

  /** A path stays a path in any part of the graph that contains what it reaches. */
  lemma PathWithin(g: Graph, part: Graph, roots: set<Name>, path: seq<Name>)
    requires Path(g, path) && path[0] in roots
    requires forall n :: Reachable(g, roots, n) ==> n in part && n in g && part[n] == g[n]
    ensures Path(part, path)
  {
    forall i | 0 <= i < |path| ensures path[i] in part && part[path[i]] == g[path[i]] {
      var prefix := path[..i + 1];
      assert Path(g, prefix) && prefix[0] in roots && prefix[|prefix| - 1] == path[i];
      assert Reachable(g, roots, path[i]);
    }
  }

  lemma SameReach(g: Graph, part: Graph, roots: set<Name>)
    requires part.Keys <= g.Keys && forall n :: n in part ==> part[n] == g[n]
    requires forall n :: Reachable(g, roots, n) ==> n in part
    ensures forall n :: Reachable(part, roots, n) <==> Reachable(g, roots, n)
  {
    forall n | Reachable(g, roots, n) ensures Reachable(part, roots, n) {
      var path :| Path(g, path) && path[0] in roots && path[|path| - 1] == n;
      PathWithin(g, part, roots, path);
    }
    forall n | Reachable(part, roots, n) ensures Reachable(g, roots, n) {
      var path :| Path(part, path) && path[0] in roots && path[|path| - 1] == n;
      assert Path(g, path);
    }
  }

  /** Filtering without filters twice is filtering once. */
  lemma UnfilteredIsIdempotent(tools: Tools, once: Tools, twice: Tools)
    requires Filtered(tools, "", "", "", once) && Filtered(once, "", "", "", twice)
    ensures twice == once
  {
    hide *;
    FilteredIsPart(tools, once);
    FilteredRoots(tools, once);
    SameReach(AllEdges(tools), AllEdges(once), Roots(tools, "", "", ""));
    TwiceIs(tools, once, twice);
  }

  lemma FilteredIsPart(tools: Tools, once: Tools)
    requires Filtered(tools, "", "", "", once)
    ensures AllEdges(once).Keys <= AllEdges(tools).Keys
    ensures forall n :: n in AllEdges(once) ==> AllEdges(once)[n] == AllEdges(tools)[n]
    ensures forall n :: Reachable(AllEdges(tools), Roots(tools, "", "", ""), n) ==> n in AllEdges(once)
  {
    hide Reachable, Roots;
  }

  lemma FilteredRoots(tools: Tools, once: Tools)
    requires Filtered(tools, "", "", "", once)
    ensures Roots(once, "", "", "") == Roots(tools, "", "", "")
  {
    hide Reachable, AllEdges;
    RootsOfAll(tools);
    RootsOfAll(once);
    forall n | n in Roots(tools, "", "", "") ensures n in once {
      EdgesOf(tools, n);
      RootReachable(AllEdges(tools), Roots(tools, "", "", ""), n);
    }
  }

  lemma TwiceIs(tools: Tools, once: Tools, twice: Tools)
    requires Filtered(tools, "", "", "", once) && Filtered(once, "", "", "", twice)
    requires Roots(once, "", "", "") == Roots(tools, "", "", "")
    requires forall n ::
               Reachable(AllEdges(once), Roots(tools, "", "", ""), n)
               <==> Reachable(AllEdges(tools), Roots(tools, "", "", ""), n)
    ensures twice == once
  {
    hide Reachable, Roots, AllEdges;
    assert twice.Keys == once.Keys;
  }

  /** The dependency graph of a run is built from a part of what filtering kept. */
  lemma RootClosureIsKept(tools: Tools, kept: Tools, n: Name)
    requires Filtered(tools, "", "", "", kept) && "" !in tools
    requires Reachable(NeedEdges(tools), PlainRoots(tools), n)
    ensures n in kept
  {
    RootsOfAll(tools);
    var path :| Path(NeedEdges(tools), path) && path[0] in PlainRoots(tools) && path[|path| - 1] == n;
    assert Path(AllEdges(tools), path) && path[0] in Roots(tools, "", "", "");
  }
}
