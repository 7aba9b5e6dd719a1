/**
 `{name}` placeholders, as a scanner over the template, and the two passes in which a document is expanded:
 first every fact but the architecture and the operating system, later those two with per-method spellings.
 */
module Placeholders {
  import opened Basics
  import opened Layers
  import opened Strings

  predicate NameStart(c: char) { 'a' <= c <= 'z' }

  predicate NameChar(c: char) { 'a' <= c <= 'z' || '0' <= c <= '9' || c == '_' }

  predicate IsName(s: string) {
    s != "" && NameStart(s[0]) && forall i :: 0 <= i < |s| ==> NameChar(s[i])
  }

  /** The name of the token that starts here. Names hold no brace, so a token ends at the first close. */
  function TokenAt(s: string): (name: Option<string>)
    ensures name.Some? ==>
              IsName(name.value) && |name.value| + 2 <= |s| && s[..|name.value| + 2] == "{" + name.value + "}"
  {
    if s == "" || s[0] != '{' then None
    else
      var n := IndexOf(s[1..], '}');
      if n < |s| - 1 && IsName(s[1..n + 1]) then
        assert s[..n + 2] == "{" + s[1..n + 1] + "}";
        Some(s[1..n + 1])
      else None
  }

  function Replacement(name: string, m: map<string, string>): string {
    if name in m then m[name] else "{" + name + "}"
  }

  /** Replaces known tokens, leftmost first; everything else stays. */
  function Expand(s: string, m: map<string, string>): string
    decreases |s|
  {
    if s == "" then ""
    else
      match TokenAt(s)
      case Some(name) => Replacement(name, m) + Expand(s[|name| + 2..], m)
      case None => [s[0]] + Expand(s[1..], m)
  }

  function ExpandAll(v: Any, m: map<string, string>): Any {
    match v
    case Text(text) => Text(Expand(text, m))
    case Table(entries) => Table(map k | k in entries :: ExpandAll(entries[k], m))
    case List(items) => List(seq(|items|, i requires 0 <= i < |items| => ExpandAll(items[i], m)))
    case Nil | Number(_) | Flag(_) => v
  }

  // ----- templates without tokens inside braces -----

  /** No token starts while a literal brace is open. */
  predicate Flat(s: string, open: bool)
    decreases |s|
  {
    s == ""
    || match TokenAt(s)
       case Some(name) => !open && Flat(s[|name| + 2..], false)
       case None => Flat(s[1..], s[0] == '{' || (open && s[0] != '}'))
  }

  predicate BraceFree(m: map<string, string>) {
    forall k :: k in m ==> '{' !in m[k] && '}' !in m[k]
  }

  predicate FlatAll(v: Any) {
    match v
    case Text(text) => Flat(text, false)
    case Table(entries) => forall k :: k in entries ==> FlatAll(entries[k])
    case List(items) => forall i :: 0 <= i < |items| ==> FlatAll(items[i])
    case Nil | Number(_) | Flag(_) => true
  }

  /** Whether a token starts at an open brace is settled by the text up to the first close. */
  lemma TokenIsClosed(a: string, b: string)
    requires '}' !in a
    ensures TokenAt("{" + (a + "}" + b)) == if IsName(a) then Some(a) else None
  {
    hide IndexOf, IsName;
    var inner := a + ("}" + b);
    IndexOfIs(a, '}', b);
    Regroup(a, "}", b);
    assert ("{" + inner)[1..] == inner;
    assert inner[..|a|] == a;
    assert ("{" + inner)[1..|a| + 1] == inner[..|a|];
  }

  lemma OneChar(c: char, t: string, m: map<string, string>)
    requires TokenAt([c] + t) == None
    ensures Expand([c] + t, m) == [c] + Expand(t, m)
    ensures forall open :: Flat([c] + t, open) ==> Flat(t, c == '{' || (open && c != '}'))
  {
    hide TokenAt;
    assert ([c] + t)[1..] == t;
  }

  lemma NotAToken(c: char, t: string)
    ensures c != '{' || Flat([c] + t, true) ==> TokenAt([c] + t) == None
  {
  }

  lemma {:induction false} PlainText(v: string, t: string, m: map<string, string>)
    requires '{' !in v
    ensures Expand(v + t, m) == v + Expand(t, m)
    decreases |v|
  {
    hide TokenAt, Expand;
    if v == "" {
      assert v + t == t;
      assert v + Expand(t, m) == Expand(t, m);
    } else {
      var c, rest := v[0], v[1..];
      assert v == [c] + rest;
      Regroup([c], rest, t);
      NotAToken(c, rest + t);
      OneChar(c, rest + t, m);
      PlainText(rest, t, m);
      Regroup([c], rest, Expand(t, m));
    }
  }

  lemma TokenFirst(name: string, t: string, m: map<string, string>)
    requires IsName(name)
    ensures Expand("{" + name + "}" + t, m) == Replacement(name, m) + Expand(t, m)
  {
    var s := "{" + name + "}" + t;
    assert '}' !in name;
    TokenIsClosed(name, t);
    assert s == "{" + (name + "}" + t);
    assert s[|name| + 2..] == t;
  }

  /** In a flat template, the text of an open brace up to its close survives as it is. */
  lemma {:induction false} OpenTextStays(a: string, b: string, m: map<string, string>)
    requires '}' !in a && Flat(a + ("}" + b), true)
    ensures Expand(a + ("}" + b), m) == a + ("}" + Expand(b, m))
    decreases |a|
  {
    if a == "" {
      assert a + ("}" + b) == ['}'] + b;
      NotAToken('}', b);
      OneChar('}', b, m);
      assert a + ("}" + Expand(b, m)) == "}" + Expand(b, m);
    } else {
      var c, rest := a[0], a[1..];
      assert a == [c] + rest;
      Regroup([c], rest, "}" + b);
      NotAToken(c, rest + ("}" + b));
      OneChar(c, rest + ("}" + b), m);
      OpenTextStays(rest, b, m);
      Regroup([c], rest, "}" + Expand(b, m));
    }
  }

  lemma {:induction false} UnclosedStays(s: string, m: map<string, string>)
    requires '}' !in s
    ensures Expand(s, m) == s && TokenAt(s) == None
    decreases |s|
  {
    if s != "" {
      UnclosedStays(s[1..], m);
      assert s == [s[0]] + s[1..];
    }
  }

  /** Expansion does not turn a literal brace of a flat template into a token. */
  lemma NoNewToken(s: string, m: map<string, string>)
    requires s != "" && s[0] == '{' && TokenAt(s) == None && Flat(s, false)
    ensures TokenAt("{" + Expand(s[1..], m)) == None
  {
    hide TokenAt;
    var rest := s[1..];
    var n := IndexOf(rest, '}');
    assert s == "{" + rest;
    if n == |rest| {
      assert rest[..n] == rest;
      UnclosedStays(rest, m);
    } else {
      var a, b := rest[..n], rest[n + 1..];
      assert rest == a + ("}" + b);
      OpenTextStays(a, b, m);
      Regroup(a, "}", b);
      Regroup(a, "}", Expand(b, m));
      TokenIsClosed(a, Expand(b, m));
      TokenIsClosed(a, b);
    }
  }

  lemma {:induction false} FlatClosed(s: string)
    requires Flat(s, true)
    ensures Flat(s, false)
    decreases |s|
  {
    if s != "" && s[0] != '{' && s[0] != '}' { FlatClosed(s[1..]); }
  }

  /** Two passes are one pass, for flat templates and brace-free facts: what the first pass knows, it
      decides, and the second pass finds exactly the tokens that were left. */
  lemma {:induction false} TwoPhasesAreOne(s: string, first: map<string, string>, second: map<string, string>)
    requires Flat(s, false) && BraceFree(first)
    ensures Expand(Expand(s, first), second) == Expand(s, second + first)
    decreases |s|
  {
    hide TokenAt, Expand, Flat;
    ScanStep(s, first);
    ScanStep(s, second + first);
    if s == "" {
      ScanStep("", second);
    } else {
      match TokenAt(s)
      case Some(name) =>
        var rest := s[|name| + 2..];
        TwoPhasesAreOne(rest, first, second);
        if name in first {
          PlainText(first[name], Expand(rest, first), second);
        } else {
          TokenFirst(name, Expand(rest, first), second);
        }
      case None =>
        var rest := s[1..];
        if s[0] == '{' {
          FlatClosed(rest);
          NoNewToken(s, first);
        } else {
          NotAToken(s[0], Expand(rest, first));
        }
        TwoPhasesAreOne(rest, first, second);
        OneChar(s[0], Expand(rest, first), second);
    }
  }

  /** One step of the scanner. */
  lemma ScanStep(s: string, m: map<string, string>)
    ensures s == "" ==> Expand(s, m) == ""
    ensures s != "" && TokenAt(s).Some? ==>
      var name := TokenAt(s).value;
      Expand(s, m) == Replacement(name, m) + Expand(s[|name| + 2..], m)
      && (Flat(s, false) ==> Flat(s[|name| + 2..], false))
    ensures s != "" && TokenAt(s).None? ==>
      Expand(s, m) == [s[0]] + Expand(s[1..], m) && (Flat(s, false) ==> Flat(s[1..], s[0] == '{'))
  {
    hide TokenAt;
  }

  /** Expanding again changes nothing. */
  lemma ExpansionIsIdempotent(s: string, m: map<string, string>)
    requires Flat(s, false) && BraceFree(m)
    ensures Expand(Expand(s, m), m) == Expand(s, m)
  {
    TwoPhasesAreOne(s, m, m);
    assert m + m == m;
  }

  lemma BraceBeforeToken(name: string)
    requires IsName(name)
    ensures TokenAt("{" + ("{" + name + "}" + "}")) == None
    ensures TokenAt("{" + name + "}" + "}") == Some(name)
  {
    hide TokenAt;
    assert '}' !in name;
    TokenIsClosed("{" + name, "}");
    assert "{" + ("{" + name + "}" + "}") == "{" + (("{" + name) + "}" + "}");
    TokenIsClosed(name, "}");
    assert "{" + name + "}" + "}" == "{" + (name + "}" + "}");
  }

  lemma NestedExpands(name: string, m: map<string, string>)
    requires IsName(name)
    ensures var template := "{" + ("{" + name + "}" + "}");
            Expand(template, m) == "{" + Replacement(name, m) + "}" && !Flat(template, false)
  {
    hide TokenAt, IsName, Replacement;
    var inner := "{" + name + "}" + "}";
    BraceBeforeToken(name);
    assert ("{" + inner)[1..] == inner;
    TokenFirst(name, "}", m);
    PlainText("}", "", m);
    assert "}" + "" == "}";
    assert Expand("{" + inner, m) == "{" + Expand(inner, m);
    assert "{" + (Replacement(name, m) + "}") == "{" + Replacement(name, m) + "}";
  }

  /** The hypothesis is needed: a token inside braces can make a new token. */
  lemma NestedBracesMakeTokens(name: string, value: string, outcome: string)
    requires IsName(name) && IsName(value) && name != value && outcome != "{" + value + "}"
    ensures var template, first, second := "{" + ("{" + name + "}" + "}"), map[name := value], map[value := outcome];
            && !Flat(template, false) && BraceFree(first)
            && Expand(Expand(template, first), second) == outcome
            && Expand(template, second + first) == "{" + value + "}"
  {
    var template, first, second := "{" + ("{" + name + "}" + "}"), map[name := value], map[value := outcome];
    NestedExpands(name, first);
    NestedExpands(name, second + first);
    TokenFirst(value, "", second);
    assert "{" + value + "}" + "" == "{" + value + "}";
    assert '{' !in value && '}' !in value;
  }

  // ----- documents -----

  lemma {:induction false} TwoPhasesAreOneAll(v: Any, first: map<string, string>, second: map<string, string>)
    requires FlatAll(v) && BraceFree(first)
    ensures ExpandAll(ExpandAll(v, first), second) == ExpandAll(v, second + first)
    decreases v
  {
    match v
    case Text(text) => TwoPhasesAreOne(text, first, second);
    case Table(entries) =>
      forall k | k in entries
        ensures ExpandAll(ExpandAll(entries[k], first), second) == ExpandAll(entries[k], second + first)
      {
        TwoPhasesAreOneAll(entries[k], first, second);
      }
    case List(items) =>
      forall i | 0 <= i < |items|
        ensures ExpandAll(ExpandAll(items[i], first), second) == ExpandAll(items[i], second + first)
      {
        TwoPhasesAreOneAll(items[i], first, second);
      }
    case Nil | Number(_) | Flag(_) =>
  }

  /** The names of the tokens of a text, left to right. */
  function Tokens(s: string): set<string>
    decreases |s|
  {
    if s == "" then {}
    else
      match TokenAt(s)
      case Some(name) => {name} + Tokens(s[|name| + 2..])
      case None => Tokens(s[1..])
  }

  lemma {:induction false} PlainTokens(v: string, t: string)
    requires '{' !in v
    ensures Tokens(v + t) == Tokens(t)
    decreases |v|
  {
    hide TokenAt;
    if v == "" {
      assert v + t == t;
    } else {
      assert v + t == [v[0]] + (v[1..] + t) && (v + t)[1..] == v[1..] + t;
      NotAToken(v[0], v[1..] + t);
      PlainTokens(v[1..], t);
    }
  }

  /** Exactly the tokens that the map knows are gone, and no new one is there. */
  lemma {:induction false} ExpansionLeaves(s: string, m: map<string, string>)
    requires Flat(s, false) && BraceFree(m)
    ensures Tokens(Expand(s, m)) == Tokens(s) - m.Keys
    decreases |s|
  {
    hide TokenAt, Expand, Flat;
    ScanStep(s, m);
    if s != "" {
      match TokenAt(s)
      case Some(name) =>
        var rest := s[|name| + 2..];
        ExpansionLeaves(rest, m);
        if name in m {
          PlainTokens(m[name], Expand(rest, m));
        } else {
          FirstToken(name, Expand(rest, m));
        }
      case None =>
        var rest := s[1..];
        if s[0] == '{' {
          FlatClosed(rest);
          NoNewToken(s, m);
        } else {
          NotAToken(s[0], Expand(rest, m));
        }
        ExpansionLeaves(rest, m);
        assert ([s[0]] + Expand(rest, m))[1..] == Expand(rest, m);
    }
  }

  lemma FirstToken(name: string, t: string)
    requires IsName(name)
    ensures Tokens("{" + name + "}" + t) == {name} + Tokens(t)
  {
    hide TokenAt;
    var s := "{" + name + "}" + t;
    assert '}' !in name;
    TokenIsClosed(name, t);
    assert s == "{" + (name + "}" + t);
    assert s[|name| + 2..] == t;
  }

  /** The tokens of every text in a value, at any depth. */
  function TokensAll(v: Any): set<string> {
    match v
    case Text(text) => Tokens(text)
    case Table(entries) => set k, t | k in entries && t in TokensAll(entries[k]) :: t
    case List(items) => set i, t | 0 <= i < |items| && t in TokensAll(items[i]) :: t
    case Nil | Number(_) | Flag(_) => {}
  }

  lemma TableTokens(entries: map<string, Any>, t: string)
    ensures t in TokensAll(Table(entries)) <==> exists k :: k in entries && t in TokensAll(entries[k])
  {
  }

  lemma ListTokens(items: seq<Any>, t: string)
    ensures t in TokensAll(List(items)) <==> exists i :: 0 <= i < |items| && t in TokensAll(items[i])
  {
  }

  /** The same at any depth of a configuration. */
  lemma {:induction false} ExpansionLeavesAll(v: Any, m: map<string, string>)
    requires FlatAll(v) && BraceFree(m)
    ensures TokensAll(ExpandAll(v, m)) == TokensAll(v) - m.Keys
    decreases v
  {
    hide Tokens;
    match v
    case Text(text) => ExpansionLeaves(text, m);
    case Table(entries) =>
      var expanded := ExpandAll(v, m).entries;
      forall k | k in entries
        ensures expanded[k] == ExpandAll(entries[k], m) && TokensAll(expanded[k]) == TokensAll(entries[k]) - m.Keys
      {
        ExpansionLeavesAll(entries[k], m);
      }
      forall t ensures t in TokensAll(Table(expanded)) <==> t in TokensAll(v) - m.Keys {
        TableTokens(expanded, t);
        TableTokens(entries, t);
        if k :| k in entries && t in TokensAll(entries[k]) && t !in m { assert t in TokensAll(expanded[k]); }
      }
    case List(items) =>
      var expanded := ExpandAll(v, m).items;
      forall i | 0 <= i < |items|
        ensures expanded[i] == ExpandAll(items[i], m) && TokensAll(expanded[i]) == TokensAll(items[i]) - m.Keys
      {
        ExpansionLeavesAll(items[i], m);
      }
      forall t ensures t in TokensAll(List(expanded)) <==> t in TokensAll(v) - m.Keys {
        ListTokens(expanded, t);
        ListTokens(items, t);
        if i :| 0 <= i < |items| && t in TokensAll(items[i]) && t !in m { assert t in TokensAll(expanded[i]); }
      }
    case Nil | Number(_) | Flag(_) =>
  }

  /** What stands between two braces is a token exactly when it starts with a small letter and goes on with
      small letters, digits and underscores. */
  lemma TokenNames(name: string)
    requires '}' !in name
    ensures TokenAt("{" + (name + "}")) == Some(name)
            <==> name != "" && 'a' <= name[0] <= 'z'
                 && forall i :: 0 <= i < |name| ==> 'a' <= name[i] <= 'z' || '0' <= name[i] <= '9' || name[i] == '_'
  {
    hide TokenAt;
    TokenIsClosed(name, "");
    assert name + "}" + "" == name + "}";
  }

  /** A method's configuration as parsing leaves it: the withheld facts come second, spelled for the method. */
  function ParsedConfig(config: Any, facts: map<string, string>, spelled: map<string, string>): Any {
    ExpandAll(ExpandAll(config, facts - {"arch", "os"}), spelled)
  }

  /** Withholding the architecture and the system is one expansion with the method's spellings of them. */
  lemma WithheldFactsAreOnePass(config: Any, facts: map<string, string>, spelled: map<string, string>)
    requires FlatAll(config) && BraceFree(facts) && spelled.Keys <= {"arch", "os"}
    ensures ParsedConfig(config, facts, spelled) == ExpandAll(config, (facts - {"arch", "os"}) + spelled)
  {
    var first := facts - {"arch", "os"};
    TwoPhasesAreOneAll(config, first, spelled);
    assert spelled + first == first + spelled;
  }
}
