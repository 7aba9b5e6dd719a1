/**
 The string operations the grammars and filters are written with, on seq<char>.
 */
module Strings {

  predicate Space(c: char) { c in {' ', '\t', '\n', '\r', '\U{0B}', '\U{0C}'} }

  function TrimLeft(s: string): (t: string)
    ensures t != "" ==> !Space(t[0])
    ensures |t| <= |s| && s[|s| - |t|..] == t
  {
    if s != "" && Space(s[0]) then TrimLeft(s[1..]) else s
  }

  function TrimRight(s: string): (t: string)
    ensures t != "" ==> !Space(t[|t| - 1])
    ensures |t| <= |s| && s[..|t|] == t
  {
    if s != "" && Space(s[|s| - 1]) then TrimRight(s[..|s| - 1]) else s
  }

  /** Without leading and trailing ASCII space. */
  function TrimSpace(s: string): (t: string)
    ensures |t| <= |s|
  {
    TrimRight(TrimLeft(s))
  }

  function LowerChar(c: char): char {
    if 'A' <= c <= 'Z' then (c as int + 32) as char else c
  }

  function Lower(s: string): (t: string)
    ensures |t| == |s| && forall i :: 0 <= i < |s| ==> t[i] == LowerChar(s[i])
  {
    seq(|s|, i requires 0 <= i < |s| => LowerChar(s[i]))
  }

  /** The first position of a character, or the length. */
  function IndexOf(s: string, c: char): (n: nat)
    ensures n <= |s|
    ensures c !in s[..n] && (n < |s| ==> s[n] == c)
    ensures n < |s| <==> c in s
  {
    if s == "" then 0
    else if s[0] == c then 0
    else
      var n := 1 + IndexOf(s[1..], c);
      assert s[..n] == [s[0]] + s[1..][..n - 1] && s == [s[0]] + s[1..];
      n
  }

  lemma {:induction false} IndexOfIs(a: string, c: char, b: string)
    requires c !in a
    ensures IndexOf(a + ([c] + b), c) == |a|
    decreases |a|
  {
    if a == "" {
      assert a + ([c] + b) == [c] + b;
    } else {
      assert (a + ([c] + b))[1..] == a[1..] + ([c] + b);
      IndexOfIs(a[1..], c, b);
    }
  }

  /** All the pieces between occurrences of a separator. */
  function Split(s: string, c: char): (parts: seq<string>)
    ensures parts != []
    decreases |s|
  {
    var n := IndexOf(s, c);
    if n == |s| then [s] else [s[..n]] + Split(s[n + 1..], c)
  }

  function Join(parts: seq<string>, c: char): string
    requires parts != []
  {
    if |parts| == 1 then parts[0] else parts[0] + ([c] + Join(parts[1..], c))
  }

  /** Splitting is the inverse of joining pieces without separator. */
  lemma {:induction false} SplitOfJoin(parts: seq<string>, c: char)
    requires parts != [] && forall p :: p in parts ==> c !in p
    ensures Split(Join(parts, c), c) == parts
    decreases |parts|
  {
    hide Split;
    assert parts[0] in parts;
    if |parts| == 1 {
      assert parts == [parts[0]];
      SplitOne(parts[0], c);
    } else {
      assert forall p :: p in parts[1..] ==> p in parts;
      SplitOfJoin(parts[1..], c);
      SplitFirst(parts[0], c, Join(parts[1..], c));
      assert parts == [parts[0]] + parts[1..];
    }
  }

  lemma SplitOne(a: string, c: char)
    requires c !in a
    ensures Split(a, c) == [a]
  {
  }

  lemma SplitFirst(a: string, c: char, rest: string)
    requires c !in a
    ensures Split(a + ([c] + rest), c) == [a] + Split(rest, c)
  {
    hide IndexOf;
    var s := a + ([c] + rest);
    IndexOfIs(a, c, rest);
    assert s[..|a|] == a && s[|a| + 1..] == rest;
  }

  /** And joining the pieces gives the string back. */
  lemma {:induction false} JoinOfSplit(s: string, c: char)
    ensures Join(Split(s, c), c) == s
    ensures forall p :: p in Split(s, c) ==> c !in p
    decreases |s|
  {
    hide IndexOf;
    var n := IndexOf(s, c);
    if n < |s| {
      var rest := Split(s[n + 1..], c);
      JoinOfSplit(s[n + 1..], c);
      assert Split(s, c) == [s[..n]] + rest;
      assert ([s[..n]] + rest)[1..] == rest;
      assert s == s[..n] + ([c] + s[n + 1..]);
    }
  }

  /** Before and after the first mark, or the whole and nothing. */
  function Cut(s: string, mark: char): (parts: (string, string, bool)) {
    var n := IndexOf(s, mark);
    if n == |s| then (s, "", false) else (s[..n], s[n + 1..], true)
  }

  lemma CutOfConcat(a: string, mark: char, b: string)
    requires mark !in a
    ensures Cut(a + ([mark] + b), mark) == (a, b, true)
    ensures Cut(a, mark) == (a, "", false)
  {
    IndexOfIs(a, mark, b);
    var s := a + ([mark] + b);
    assert s[..|a|] == a && s[|a| + 1..] == b;
  }

  lemma CutRejoins(s: string, mark: char)
    ensures var (a, b, found) := Cut(s, mark);
            mark !in a && s == if found then a + ([mark] + b) else a
  {
    var n := IndexOf(s, mark);
    assert s[..|s|] == s;
    if n < |s| { assert s == s[..n] + ([mark] + s[n + 1..]); }
  }

  // ----- trimming -----

  predicate Blank(s: string) {
    forall i :: 0 <= i < |s| ==> Space(s[i])
  }

  /** Empty, or starting and ending with something visible. */
  predicate Visible(s: string) {
    s != "" ==> !Space(s[0]) && !Space(s[|s| - 1])
  }

  lemma {:induction false} TrimLeftSpaces(gap: string, s: string)
    requires Blank(gap) && (s != "" ==> !Space(s[0]))
    ensures TrimLeft(gap + s) == s
    decreases |gap|
  {
    if gap == "" {
      assert gap + s == s;
    } else {
      assert (gap + s)[1..] == gap[1..] + s;
      TrimLeftSpaces(gap[1..], s);
    }
  }

  lemma {:induction false} TrimRightSpaces(s: string, gap: string)
    requires Blank(gap) && (s != "" ==> !Space(s[|s| - 1]))
    ensures TrimRight(s + gap) == s
    decreases |gap|
  {
    if gap == "" {
      assert s + gap == s;
    } else {
      assert (s + gap)[..|s + gap| - 1] == s + gap[..|gap| - 1];
      TrimRightSpaces(s, gap[..|gap| - 1]);
    }
  }

  /** Text that starts and ends with something visible is what trimming leaves, within any space. */
  lemma TrimsTo(before: string, s: string, after: string)
    requires Blank(before) && Visible(s) && Blank(after)
    ensures TrimSpace(before + (s + after)) == s
  {
    if s == "" {
      assert before + (s + after) == (before + after) + "";
      TrimLeftSpaces(before + after, "");
    } else {
      TrimLeftSpaces(before, s + after);
      TrimRightSpaces(s, after);
    }
  }

  lemma TrimmedText(gap: string, s: string)
    requires Blank(gap) && Visible(s)
    ensures TrimSpace(gap + s) == s
  {
    assert s + "" == s;
    TrimsTo(gap, s, "");
  }

  /** And every text is what trimming leaves, within space. */
  lemma TrimParts(s: string) returns (before: string, after: string)
    ensures s == before + (TrimSpace(s) + after)
    ensures Blank(before) && Blank(after) && Visible(TrimSpace(s))
  {
    hide TrimLeft, TrimRight, Space;
    var l, t := TrimLeft(s), TrimSpace(s);
    assert t == TrimRight(l);
    before, after := s[..|s| - |l|], l[|t|..];
    LeftIsBlank(s);
    RightIsBlank(l);
    assert l == t + after && s == before + l;
    if t != "" { assert t[0] == l[0]; }
  }

  lemma {:induction false} LeftIsBlank(s: string)
    ensures Blank(s[..|s| - |TrimLeft(s)|])
    decreases |s|
  {
    if s != "" && Space(s[0]) {
      LeftIsBlank(s[1..]);
      var n := |s| - |TrimLeft(s)|;
      assert s[..n] == [s[0]] + s[1..][..n - 1];
    }
  }

  lemma {:induction false} RightIsBlank(s: string)
    ensures Blank(s[|TrimRight(s)|..])
    decreases |s|
  {
    if s != "" && Space(s[|s| - 1]) {
      var front, last := s[..|s| - 1], s[|s| - 1];
      RightIsBlank(front);
      assert s[|TrimRight(s)|..] == front[|TrimRight(s)|..] + [last];
    }
  }

  // ----- order -----

  /** Byte-wise string comparison. */
  predicate LexLess(a: string, b: string)
    decreases |a|
  {
    if b == "" then false
    else if a == "" then true
    else a[0] < b[0] || (a[0] == b[0] && LexLess(a[1..], b[1..]))
  }

  lemma {:induction false} LexTotal(a: string, b: string)
    ensures LexLess(a, b) || LexLess(b, a) || a == b
    ensures !(LexLess(a, b) && LexLess(b, a)) && !LexLess(a, a)
    decreases |a|
  {
    if a != "" && b != "" {
      LexTotal(a[1..], b[1..]);
      assert a == [a[0]] + a[1..] && b == [b[0]] + b[1..];
    }
    if a != "" { LexTotal(a[1..], a[1..]); }
  }

  lemma {:induction false} LexTransitive(a: string, b: string, c: string)
    requires !LexLess(b, a) && !LexLess(c, b)
    ensures !LexLess(c, a)
    decreases |a|
  {
    if a != "" && b != "" && c != "" && a[0] == b[0] == c[0] { LexTransitive(a[1..], b[1..], c[1..]); }
  }
}
