/**
 The order in which a tool's methods are tried. Selection extracts candidates from a slice in place, once
 per selector; what it computes is one stable sort by (first matching selector, display name).
 */
module MethodOrder {
  import opened Basics
  import opened Strings

  /** A candidate; `payload` stands for everything ordering does not look at. */
  datatype Candidate = Candidate(kind: string, label_: string, payload: int) {
    function Name(): string { if label_ != "" then label_ else kind }

    predicate Matches(selector: string) { kind == selector || (label_ != "" && label_ == selector) }
  }

  /** The position of the first selector that matches, or the number of selectors. */
  function Rank(m: Candidate, selectors: seq<string>): (r: nat)
    ensures r <= |selectors|
  {
    if selectors == [] then 0
    else if m.Matches(selectors[0]) then 0
    else 1 + Rank(m, selectors[1..])
  }

  lemma {:induction false} RankIsFirstMatch(m: Candidate, selectors: seq<string>)
    ensures Rank(m, selectors) < |selectors| ==> m.Matches(selectors[Rank(m, selectors)])
    ensures forall i :: 0 <= i < Rank(m, selectors) ==> !m.Matches(selectors[i])
    decreases |selectors|
  {
    if selectors != [] && !m.Matches(selectors[0]) { RankIsFirstMatch(m, selectors[1..]); }
  }

  /** `a` may stand before `b`. */
  predicate Leq(selectors: seq<string>, a: Candidate, b: Candidate) {
    Rank(a, selectors) < Rank(b, selectors)
    || (Rank(a, selectors) == Rank(b, selectors) && !LexLess(b.Name(), a.Name()))
  }

  predicate SameKey(selectors: seq<string>, a: Candidate, b: Candidate) {
    Rank(a, selectors) == Rank(b, selectors) && a.Name() == b.Name()
  }

  lemma LeqOrder(selectors: seq<string>, a: Candidate, b: Candidate, c: Candidate)
    ensures Leq(selectors, a, b) || Leq(selectors, b, a)
    ensures Leq(selectors, a, b) && Leq(selectors, b, a) <==> SameKey(selectors, a, b)
    ensures Leq(selectors, a, b) && Leq(selectors, b, c) ==> Leq(selectors, a, c)
  {
    LexTotal(a.Name(), b.Name());
    if Leq(selectors, a, b) && Leq(selectors, b, c) && Rank(a, selectors) == Rank(c, selectors) {
      LexTransitive(a.Name(), b.Name(), c.Name());
    }
  }

  ghost predicate Sorted(selectors: seq<string>, ms: seq<Candidate>) {
    forall i, j :: 0 <= i < j < |ms| ==> Leq(selectors, ms[i], ms[j])
  }

  /** The candidates with one key, in their order. */
  function WithKey(selectors: seq<string>, ms: seq<Candidate>, key: Candidate): seq<Candidate> {
    if ms == [] then []
    else (if SameKey(selectors, ms[0], key) then [ms[0]] else []) + WithKey(selectors, ms[1..], key)
  }

  /** `out` is a stable sort of `ms`: in order, and each key's candidates as they were. */
  ghost predicate StableSortOf(selectors: seq<string>, out: seq<Candidate>, ms: seq<Candidate>) {
    && Sorted(selectors, out)
    && forall key :: WithKey(selectors, out, key) == WithKey(selectors, ms, key)
  }

  // ----- there is exactly one stable sort -----

  lemma {:induction false} KeyHolds(selectors: seq<string>, ms: seq<Candidate>, key: Candidate, m: Candidate)
    ensures m in WithKey(selectors, ms, key) <==> m in ms && SameKey(selectors, m, key)
    decreases |ms|
  {
    if ms != [] {
      KeyHolds(selectors, ms[1..], key, m);
      assert m in ms <==> m == ms[0] || m in ms[1..];
    }
  }

  lemma {:induction false} StableSortUnique(selectors: seq<string>, a: seq<Candidate>, b: seq<Candidate>)
    requires Sorted(selectors, a) && Sorted(selectors, b)
    requires forall key :: WithKey(selectors, a, key) == WithKey(selectors, b, key)
    ensures a == b
    decreases |a|
  {
    hide Leq, SameKey, WithKey;
    if a == [] {
      if b != [] {
        SameIsEquivalence(selectors, b[0], b[0]);
        KeyHolds(selectors, b, b[0], b[0]);
        KeyHolds(selectors, a, b[0], b[0]);
      }
    } else {
      var x := a[0];
      SameIsEquivalence(selectors, x, x);
      KeyHolds(selectors, a, x, x);
      KeyHolds(selectors, b, x, x);
      var y := b[0];
      SameIsEquivalence(selectors, y, y);
      KeyHolds(selectors, b, y, y);
      KeyHolds(selectors, a, y, y);
      FirstIsLeast(selectors, a, y);
      FirstIsLeast(selectors, b, x);
      LeqOrder(selectors, x, y, x);
      SameIsEquivalence(selectors, x, y);
      KeySplits(selectors, a, x);
      KeySplits(selectors, b, x);
      assert WithKey(selectors, a, x)[0] == x && WithKey(selectors, b, x)[0] == y;
      forall key ensures WithKey(selectors, a[1..], key) == WithKey(selectors, b[1..], key) {
        KeySplits(selectors, a, key);
        KeySplits(selectors, b, key);
        assert WithKey(selectors, a, key) == WithKey(selectors, b, key);
        var head := if SameKey(selectors, x, key) then [x] else [];
        TailsAgree(head, WithKey(selectors, a[1..], key), WithKey(selectors, b[1..], key));
      }
      StableSortUnique(selectors, a[1..], b[1..]);
      assert a == [x] + a[1..] && b == [y] + b[1..];
    }
  }

  lemma TailsAgree(head: seq<Candidate>, a: seq<Candidate>, b: seq<Candidate>)
    requires head + a == head + b
    ensures a == b
  {
    assert a == (head + a)[|head|..] && b == (head + b)[|head|..];
  }

  lemma SameIsEquivalence(selectors: seq<string>, a: Candidate, b: Candidate)
    ensures SameKey(selectors, a, a)
    ensures SameKey(selectors, a, b) <==> SameKey(selectors, b, a)
  {
  }

  lemma FirstIsLeast(selectors: seq<string>, ms: seq<Candidate>, m: Candidate)
    requires Sorted(selectors, ms) && m in ms
    ensures Leq(selectors, ms[0], m)
  {
    LeqOrder(selectors, m, m, m);
  }

  lemma KeySplits(selectors: seq<string>, ms: seq<Candidate>, key: Candidate)
    ensures WithKey(selectors, ms, key)
            == if ms == [] then []
               else (if SameKey(selectors, ms[0], key) then [ms[0]] else []) + WithKey(selectors, ms[1..], key)
  {
  }

  lemma {:induction false} KeyConcat(selectors: seq<string>, a: seq<Candidate>, b: seq<Candidate>, key: Candidate)
    ensures WithKey(selectors, a + b, key) == WithKey(selectors, a, key) + WithKey(selectors, b, key)
    decreases |a|
  {
    if a == [] {
      assert a + b == b;
    } else {
      assert (a + b)[1..] == a[1..] + b;
      KeyConcat(selectors, a[1..], b, key);
    }
  }

  // ----- the stable sort as a function -----

  function Insert(selectors: seq<string>, m: Candidate, ms: seq<Candidate>): seq<Candidate> {
    if ms == [] || Leq(selectors, m, ms[0]) then [m] + ms
    else [ms[0]] + Insert(selectors, m, ms[1..])
  }

  function StableSort(selectors: seq<string>, ms: seq<Candidate>): seq<Candidate> {
    if ms == [] then [] else Insert(selectors, ms[0], StableSort(selectors, ms[1..]))
  }

  lemma {:induction false} InsertIsStable(selectors: seq<string>, m: Candidate, ms: seq<Candidate>)
    requires Sorted(selectors, ms)
    ensures Sorted(selectors, Insert(selectors, m, ms))
    ensures multiset(Insert(selectors, m, ms)) == multiset([m] + ms)
    decreases |ms|
  {
    hide Leq;
    if ms == [] || Leq(selectors, m, ms[0]) {
      forall i | 0 <= i < |ms| ensures Leq(selectors, m, ms[i]) {
        FirstIsLeast(selectors, ms, ms[i]);
        LeqOrder(selectors, m, ms[0], ms[i]);
      }
    } else {
      var inserted := Insert(selectors, m, ms[1..]);
      InsertIsStable(selectors, m, ms[1..]);
      assert ms == [ms[0]] + ms[1..];
      forall x | x in inserted ensures Leq(selectors, ms[0], x) {
        assert x in multiset([m] + ms[1..]);
        LeqOrder(selectors, ms[0], m, m);
        if x != m { FirstIsLeast(selectors, ms, x); }
      }
    }
  }

  lemma {:induction false} InsertKeepsKeys(selectors: seq<string>, m: Candidate, ms: seq<Candidate>, key: Candidate)
    ensures WithKey(selectors, Insert(selectors, m, ms), key) == WithKey(selectors, [m] + ms, key)
    decreases |ms|
  {
    if ms != [] && !Leq(selectors, m, ms[0]) {
      hide Leq, SameKey, WithKey;
      var inserted := Insert(selectors, m, ms[1..]);
      InsertKeepsKeys(selectors, m, ms[1..], key);
      KeySplits(selectors, [ms[0]] + inserted, key);
      KeySplits(selectors, [m] + ms, key);
      KeySplits(selectors, [m] + ms[1..], key);
      KeySplits(selectors, ms, key);
      assert ([ms[0]] + inserted)[1..] == inserted;
      assert ([m] + ms)[1..] == ms && ([m] + ms[1..])[1..] == ms[1..];
      NotBoth(selectors, m, ms[0], key);
    }
  }

  lemma NotBoth(selectors: seq<string>, a: Candidate, b: Candidate, key: Candidate)
    requires !Leq(selectors, a, b)
    ensures !SameKey(selectors, a, key) || !SameKey(selectors, b, key)
  {
    LexTotal(a.Name(), a.Name());
  }

  lemma {:induction false} StableSortIsStable(selectors: seq<string>, ms: seq<Candidate>)
    ensures StableSortOf(selectors, StableSort(selectors, ms), ms)
    ensures multiset(StableSort(selectors, ms)) == multiset(ms)
    decreases |ms|
  {
    hide Leq, SameKey, WithKey;
    if ms != [] {
      var rest := StableSort(selectors, ms[1..]);
      StableSortIsStable(selectors, ms[1..]);
      InsertIsStable(selectors, ms[0], rest);
      assert ms == [ms[0]] + ms[1..];
      forall key ensures WithKey(selectors, StableSort(selectors, ms), key) == WithKey(selectors, ms, key) {
        InsertKeepsKeys(selectors, ms[0], rest, key);
        KeyConcat(selectors, [ms[0]], rest, key);
        KeyConcat(selectors, [ms[0]], ms[1..], key);
        assert WithKey(selectors, rest, key) == WithKey(selectors, ms[1..], key);
      }
    }
  }

  /** Whatever is a stable sort is the stable sort. */
  lemma StableSortIs(selectors: seq<string>, out: seq<Candidate>, ms: seq<Candidate>)
    requires StableSortOf(selectors, out, ms)
    ensures out == StableSort(selectors, ms)
  {
    StableSortIsStable(selectors, ms);
    StableSortUnique(selectors, out, StableSort(selectors, ms));
  }

  // ----- selection -----

  /** The candidates ranked in [lo, hi), in their order. */
  function Between(selectors: seq<string>, ms: seq<Candidate>, lo: nat, hi: nat): seq<Candidate> {
    if ms == [] then []
    else (if lo <= Rank(ms[0], selectors) < hi then [ms[0]] else []) + Between(selectors, ms[1..], lo, hi)
  }

  /** What selection means: the stable sort of all candidates, or of the matching ones when the policy is
      exclusive. */
  function Select(ms: seq<Candidate>, selectors: seq<string>, exclusive: bool): seq<Candidate> {
    StableSort(selectors, if exclusive then Between(selectors, ms, 0, |selectors|) else ms)
  }

  /** What extraction gathers for the first `k` selectors. */
  function Extracted(selectors: seq<string>, ms: seq<Candidate>, k: nat): seq<Candidate> {
    if k == 0 then [] else Extracted(selectors, ms, k - 1) + Between(selectors, ms, k - 1, k)
  }

  lemma {:induction false} BetweenHolds(selectors: seq<string>, ms: seq<Candidate>, lo: nat, hi: nat, m: Candidate)
    ensures m in Between(selectors, ms, lo, hi) <==> m in ms && lo <= Rank(m, selectors) < hi
    decreases |ms|
  {
    if ms != [] {
      BetweenHolds(selectors, ms[1..], lo, hi, m);
      assert m in ms <==> m == ms[0] || m in ms[1..];
    }
  }

  lemma {:induction false} BetweenConcat(selectors: seq<string>, a: seq<Candidate>, b: seq<Candidate>, lo: nat, hi: nat)
    ensures Between(selectors, a + b, lo, hi) == Between(selectors, a, lo, hi) + Between(selectors, b, lo, hi)
    decreases |a|
  {
    if a == [] {
      assert a + b == b;
    } else {
      assert (a + b)[1..] == a[1..] + b;
      BetweenConcat(selectors, a[1..], b, lo, hi);
    }
  }

  lemma {:induction false} KeyBetween(selectors: seq<string>, ms: seq<Candidate>, lo: nat, hi: nat, key: Candidate)
    ensures WithKey(selectors, Between(selectors, ms, lo, hi), key)
            == if lo <= Rank(key, selectors) < hi then WithKey(selectors, ms, key) else []
    decreases |ms|
  {
    if ms != [] {
      var first := if lo <= Rank(ms[0], selectors) < hi then [ms[0]] else [];
      KeyConcat(selectors, first, Between(selectors, ms[1..], lo, hi), key);
      KeyBetween(selectors, ms[1..], lo, hi, key);
    }
  }

  /** A name-sorted list keeps its order within one rank. */
  lemma {:induction false} OneRankIsSorted(selectors: seq<string>, ms: seq<Candidate>, r: nat)
    requires Sorted([], ms)
    ensures Sorted(selectors, Between(selectors, ms, r, r + 1))
    decreases |ms|
  {
    if ms != [] {
      var rest := Between(selectors, ms[1..], r, r + 1);
      OneRankIsSorted(selectors, ms[1..], r);
      forall x | x in rest && Rank(ms[0], selectors) == r ensures Leq(selectors, ms[0], x) {
        BetweenHolds(selectors, ms[1..], r, r + 1, x);
        FirstIsLeast([], ms, x);
      }
    }
  }

  lemma SortedConcat(selectors: seq<string>, a: seq<Candidate>, b: seq<Candidate>)
    ensures Sorted(selectors, [])
    ensures Sorted(selectors, a) && Sorted(selectors, b)
            && (forall x, y :: x in a && y in b ==> Leq(selectors, x, y)) ==>
              Sorted(selectors, a + b)
  {
    hide Leq;
  }

  lemma LowerRankFirst(selectors: seq<string>, a: Candidate, b: Candidate)
    ensures Rank(a, selectors) < Rank(b, selectors) ==> Leq(selectors, a, b)
  {
  }

  lemma {:induction false} ExtractedIsSorted(selectors: seq<string>, ms: seq<Candidate>, k: nat)
    requires Sorted([], ms)
    ensures Sorted(selectors, Extracted(selectors, ms, k))
    ensures forall x :: x in Extracted(selectors, ms, k) ==> Rank(x, selectors) < k
  {
    hide Between, Rank, Leq, Sorted;
    if k > 0 {
      var front, last := Extracted(selectors, ms, k - 1), Between(selectors, ms, k - 1, k);
      ExtractedIsSorted(selectors, ms, k - 1);
      OneRankIsSorted(selectors, ms, k - 1);
      assert forall x :: x in last ==> Rank(x, selectors) == k - 1 by {
        forall x | x in last ensures Rank(x, selectors) == k - 1 { BetweenHolds(selectors, ms, k - 1, k, x); }
      }
      forall x, y | x in front && y in last ensures Leq(selectors, x, y) { LowerRankFirst(selectors, x, y); }
      SortedConcat(selectors, front, last);
      assert Extracted(selectors, ms, k) == front + last;
    } else {
      assert Extracted(selectors, ms, k) == [];
      SortedConcat(selectors, [], []);
    }
  }

  lemma {:induction false} KeyExtracted(selectors: seq<string>, ms: seq<Candidate>, k: nat, key: Candidate)
    ensures WithKey(selectors, Extracted(selectors, ms, k), key)
            == if Rank(key, selectors) < k then WithKey(selectors, ms, key) else []
  {
    hide Between, Rank, SameKey, WithKey;
    if k > 0 {
      var front, last := Extracted(selectors, ms, k - 1), Between(selectors, ms, k - 1, k);
      KeyExtracted(selectors, ms, k - 1, key);
      KeyBetween(selectors, ms, k - 1, k, key);
      KeyConcat(selectors, front, last, key);
    } else {
      KeySplits(selectors, [], key);
    }
  }

  /** One key is one name and one rank. */
  lemma {:induction false} KeyWithinName(selectors: seq<string>, ms: seq<Candidate>, key: Candidate)
    ensures WithKey(selectors, ms, key) == WithKey(selectors, WithKey([], ms, key), key)
    decreases |ms|
  {
    if ms != [] {
      KeyWithinName(selectors, ms[1..], key);
      var first := if SameKey([], ms[0], key) then [ms[0]] else [];
      KeyConcat(selectors, first, WithKey([], ms[1..], key), key);
    }
  }

  /** Extraction from the name-sorted candidates is selection. */
  lemma ExtractionSelects(selectors: seq<string>, ms: seq<Candidate>)
    ensures var sorted, n := StableSort([], ms), |selectors|;
            && Extracted(selectors, sorted, n) == Select(ms, selectors, true)
            && Extracted(selectors, sorted, n) + Between(selectors, sorted, n, n + 1) == Select(ms, selectors, false)
  {
    hide Between, Rank, Sorted, WithKey, StableSort, Extracted, SameKey;
    var sorted, n := StableSort([], ms), |selectors|;
    StableSortIsStable([], ms);
    var front, rest := Extracted(selectors, sorted, n), Between(selectors, sorted, n, n + 1);
    ExtractedIsSorted(selectors, sorted, n);
    OneRankIsSorted(selectors, sorted, n);
    forall key
      ensures WithKey(selectors, front, key) == WithKey(selectors, Between(selectors, ms, 0, n), key)
      ensures WithKey(selectors, front + rest, key) == WithKey(selectors, ms, key)
    {
      ExtractionKeepsKeys(selectors, ms, sorted, key);
    }
    StableSortIs(selectors, front, Between(selectors, ms, 0, n));
    forall x, y | x in front && y in rest ensures Leq(selectors, x, y) { BetweenHolds(selectors, sorted, n, n + 1, y); }
    SortedConcat(selectors, front, rest);
    StableSortIs(selectors, front + rest, ms);
  }

  lemma ExtractionKeepsKeys(selectors: seq<string>, ms: seq<Candidate>, sorted: seq<Candidate>, key: Candidate)
    requires WithKey([], sorted, key) == WithKey([], ms, key)
    ensures var n := |selectors|;
            var front, rest := Extracted(selectors, sorted, n), Between(selectors, sorted, n, n + 1);
            && WithKey(selectors, front, key) == WithKey(selectors, Between(selectors, ms, 0, n), key)
            && WithKey(selectors, front + rest, key) == WithKey(selectors, ms, key)
  {
    hide Between, Rank, WithKey, Extracted, SameKey;
    var n := |selectors|;
    var front, rest := Extracted(selectors, sorted, n), Between(selectors, sorted, n, n + 1);
    assert WithKey(selectors, sorted, key) == WithKey(selectors, ms, key) by {
      KeyWithinName(selectors, sorted, key);
      KeyWithinName(selectors, ms, key);
    }
    KeyExtracted(selectors, sorted, n, key);
    KeyBetween(selectors, ms, 0, n, key);
    assert WithKey(selectors, rest, key) == if Rank(key, selectors) == n then WithKey(selectors, ms, key) else [] by {
      KeyBetween(selectors, sorted, n, n + 1, key);
    }
    KeyConcat(selectors, front, rest, key);
  }

  /** The library's stable sort, by display name: each candidate goes before the first that is not smaller. */
  method SortByName(ms: seq<Candidate>) returns (sorted: seq<Candidate>)
    ensures sorted == StableSort([], ms)
  {
    sorted := [];
    var i := |ms|;
    while i > 0
      invariant 0 <= i <= |ms|
      invariant sorted == StableSort([], ms[i..])
    {
      i := i - 1;
      assert ms[i..][1..] == ms[i + 1..];
      sorted := InsertByName(ms[i], sorted);
    }
    assert ms[0..] == ms;
  }

  method InsertByName(m: Candidate, sorted: seq<Candidate>) returns (out: seq<Candidate>)
    ensures out == Insert([], m, sorted)
  {
    hide LexLess, Candidate.Name, Leq, Insert;
    var p := 0;
    ghost var front: seq<Candidate> := [];
    while p < |sorted| && LexLess(sorted[p].Name(), m.Name())
      invariant 0 <= p <= |sorted| && front == sorted[..p]
      invariant front + Insert([], m, sorted[p..]) == Insert([], m, sorted)
    {
      InsertStep(m, sorted[p..]);
      assert sorted[p..][1..] == sorted[p + 1..];
      Regroup(front, [sorted[p]], Insert([], m, sorted[p + 1..]));
      assert sorted[..p + 1] == front + [sorted[p]];
      front := front + [sorted[p]];
      p := p + 1;
    }
    InsertStep(m, sorted[p..]);
    out := sorted[..p] + ([m] + sorted[p..]);
  }

  lemma InsertStep(m: Candidate, ms: seq<Candidate>)
    ensures Insert([], m, ms)
            == if ms != [] && LexLess(ms[0].Name(), m.Name()) then [ms[0]] + Insert([], m, ms[1..]) else [m] + ms
  {
  }

  /** The candidates of one selector leave `remaining`, in order, and join `out`. */
  method Extract(remaining: seq<Candidate>, selectors: seq<string>, k: nat)
      returns (out: seq<Candidate>, left: seq<Candidate>)
    requires k < |selectors|
    requires forall m :: m in remaining ==> k <= Rank(m, selectors)
    ensures out == Between(selectors, remaining, k, k + 1)
    ensures left == Between(selectors, remaining, k + 1, |selectors| + 1)
  {
    hide Between, Rank, Candidate.Matches;
    out, left := [], remaining;
    var i := 0;
    ghost var n := |selectors| + 1;
    ghost var done: seq<Candidate>, kept: seq<Candidate>, rest := [], [], remaining;
    ExtractedStep(selectors, remaining, k);
    while i < |left|
      invariant remaining == done + rest && left == kept + rest && i == |kept|
      invariant forall m :: m in rest ==> k <= Rank(m, selectors)
      invariant kept == Between(selectors, done, k + 1, n)
      invariant out == Between(selectors, done, k, k + 1)
      decreases |rest|
    {
      TakeOut(done, kept, rest);
      BetweenMore(selectors, done, rest[0], k, k + 1);
      BetweenMore(selectors, done, rest[0], k + 1, n);
      RankIsFirstMatch(rest[0], selectors);
      if !left[i].Matches(selectors[k]) {
        i := i + 1;
        kept := kept + [rest[0]];
      } else {
        out := out + [left[i]];
        left := left[..i] + left[i + 1..];
      }
      done := done + [rest[0]];
      rest := rest[1..];
    }
    assert done == remaining;
  }

  lemma TakeOut(done: seq<Candidate>, kept: seq<Candidate>, rest: seq<Candidate>)
    requires rest != []
    ensures var left := kept + rest;
            && left[|kept|] == rest[0]
            && left == (kept + [rest[0]]) + rest[1..]
            && left[..|kept|] + left[|kept| + 1..] == kept + rest[1..]
    ensures done + rest == (done + [rest[0]]) + rest[1..]
  {
  }

  lemma BetweenMore(selectors: seq<string>, ms: seq<Candidate>, m: Candidate, lo: nat, hi: nat)
    ensures Between(selectors, ms + [m], lo, hi)
            == if lo <= Rank(m, selectors) < hi then Between(selectors, ms, lo, hi) + [m]
               else Between(selectors, ms, lo, hi)
  {
    hide Rank;
    BetweenConcat(selectors, ms, [m], lo, hi);
  }

  /** `selectMethods`: the in-place extraction is the stable sort by (first matching selector, name). */
  method SelectMethods(ms: seq<Candidate>, selectors: seq<string>, exclusive: bool) returns (out: seq<Candidate>)
    ensures out == Select(ms, selectors, exclusive)
  {
    hide *;
    var remaining := SortByName(ms);
    ghost var sorted := remaining;
    out := [];
    RanksStart(selectors, sorted);
    ExtractedStep(selectors, sorted, 0);
    for k := 0 to |selectors|
      invariant out == Extracted(selectors, sorted, k)
      invariant remaining == Between(selectors, sorted, k, |selectors| + 1)
    {
      forall m | m in remaining ensures k <= Rank(m, selectors) {
        BetweenHolds(selectors, sorted, k, |selectors| + 1, m);
      }
      BetweenNarrows(selectors, sorted, k, |selectors| + 1);
      ExtractedStep(selectors, sorted, k);
      var found, left := Extract(remaining, selectors, k);
      out := out + found;
      remaining := left;
    }
    if !exclusive {
      out := out + remaining;
    }
    ExtractionSelects(selectors, ms);
  }

  lemma ExtractedStep(selectors: seq<string>, ms: seq<Candidate>, k: nat)
    ensures Extracted(selectors, ms, 0) == [] && forall lo: nat, hi: nat :: Between(selectors, [], lo, hi) == []
    ensures Extracted(selectors, ms, k + 1) == Extracted(selectors, ms, k) + Between(selectors, ms, k, k + 1)
  {
  }

  lemma {:induction false} RanksStart(selectors: seq<string>, ms: seq<Candidate>)
    ensures Between(selectors, ms, 0, |selectors| + 1) == ms
    decreases |ms|
  {
    if ms != [] { RanksStart(selectors, ms[1..]); }
  }

  lemma {:induction false} BetweenNarrows(selectors: seq<string>, ms: seq<Candidate>, k: nat, hi: nat)
    requires k < hi
    ensures Between(selectors, Between(selectors, ms, k, hi), k, k + 1) == Between(selectors, ms, k, k + 1)
    ensures Between(selectors, Between(selectors, ms, k, hi), k + 1, hi) == Between(selectors, ms, k + 1, hi)
    decreases |ms|
  {
    if ms != [] {
      BetweenNarrows(selectors, ms[1..], k, hi);
      var first := if k <= Rank(ms[0], selectors) < hi then [ms[0]] else [];
      BetweenConcat(selectors, first, Between(selectors, ms[1..], k, hi), k, k + 1);
      BetweenConcat(selectors, first, Between(selectors, ms[1..], k, hi), k + 1, hi);
    }
  }

  // ----- what a policy promises -----

  /** `method_prefer` loses no fallback; `method_only` keeps the matching candidates and no other. */
  lemma SelectionKeeps(ms: seq<Candidate>, selectors: seq<string>, m: Candidate)
    ensures multiset(Select(ms, selectors, false)) == multiset(ms)
    ensures multiset(Select(ms, selectors, true)) == multiset(Between(selectors, ms, 0, |selectors|))
    ensures m in Select(ms, selectors, true) <==> m in ms && exists i :: 0 <= i < |selectors| && m.Matches(selectors[i])
  {
    StableSortIsStable(selectors, ms);
    var matching := Between(selectors, ms, 0, |selectors|);
    StableSortIsStable(selectors, matching);
    BetweenHolds(selectors, ms, 0, |selectors|, m);
    assert m in Select(ms, selectors, true) <==> m in multiset(matching);
    RankIsFirstMatch(m, selectors);
    if i :| 0 <= i < |selectors| && m.Matches(selectors[i]) { assert Rank(m, selectors) <= i; }
  }

  /** A selector names a kind, or the label of one labelled candidate. */
  predicate Names(selector: string, m: Candidate) {
    m.kind == selector || (|m.label_| > 0 && m.label_ == selector)
  }

  /** Some selector names `a` before any names `b`. */
  predicate Earlier(selectors: seq<string>, a: Candidate, b: Candidate) {
    exists k :: 0 <= k < |selectors| && Names(selectors[k], a) && forall l :: 0 <= l <= k ==> !Names(selectors[l], b)
  }

  lemma EarlierIsLower(selectors: seq<string>, a: Candidate, b: Candidate)
    ensures Earlier(selectors, a, b) <==> Rank(a, selectors) < Rank(b, selectors)
  {
    RankIsFirstMatch(a, selectors);
    RankIsFirstMatch(b, selectors);
    assert forall s, m: Candidate :: Names(s, m) <==> m.Matches(s);
    var k := Rank(a, selectors);
    if k < Rank(b, selectors) { assert Names(selectors[k], a); }
  }

  /** What selectors do, said of the selectors themselves: `method_only` keeps exactly what some selector
      names by kind or by label. */
  lemma SelectorsKeep(ms: seq<Candidate>, selectors: seq<string>, exclusive: bool, m: Candidate)
    ensures m in Select(ms, selectors, exclusive) <==> m in ms && (exclusive ==> exists s <- selectors :: Names(s, m))
  {
    hide Select;
    SelectionKeeps(ms, selectors, m);
    assert m in Select(ms, selectors, false) <==> m in multiset(ms);
    assert forall s :: Names(s, m) <==> m.Matches(s);
  }

  /** And what an earlier selector names comes first; what no selector tells apart is in the order of the
      names shown. */
  lemma SelectorsDecide(ms: seq<Candidate>, selectors: seq<string>, exclusive: bool, i: nat, j: nat)
    requires i < |Select(ms, selectors, exclusive)| && j < |Select(ms, selectors, exclusive)|
    ensures var out := Select(ms, selectors, exclusive);
            && (Earlier(selectors, out[i], out[j]) ==> i < j)
            && (i < j && !Earlier(selectors, out[i], out[j]) ==> !LexLess(Shown(out[j]), Shown(out[i])))
  {
    hide StableSort, WithKey, Between, Rank, Earlier;
    var out := Select(ms, selectors, exclusive);
    StableSortIsStable(selectors, if exclusive then Between(selectors, ms, 0, |selectors|) else ms);
    EarlierIsLower(selectors, out[i], out[j]);
    assert i > j ==> Leq(selectors, out[j], out[i]);
    assert i < j ==> Leq(selectors, out[i], out[j]);
  }

  /** The name a candidate is shown under. */
  function Shown(m: Candidate): string {
    if |m.label_| > 0 then m.label_ else m.kind
  }

  /** Selecting twice is selecting once. */
  lemma SelectionIsIdempotent(ms: seq<Candidate>, selectors: seq<string>, exclusive: bool)
    ensures Select(Select(ms, selectors, exclusive), selectors, exclusive) == Select(ms, selectors, exclusive)
  {
    hide Between, Rank, WithKey, Leq, StableSort;
    var once := Select(ms, selectors, exclusive);
    StableSortIsStable(selectors, if exclusive then Between(selectors, ms, 0, |selectors|) else ms);
    SortedIsItsSort(selectors, once);
    if exclusive {
      forall m | m in once ensures Rank(m, selectors) < |selectors| {
        SelectionKeeps(ms, selectors, m);
        RankIsFirstMatch(m, selectors);
      }
      AllBetween(selectors, once);
    }
  }

  lemma SortedIsItsSort(selectors: seq<string>, ms: seq<Candidate>)
    requires Sorted(selectors, ms)
    ensures StableSort(selectors, ms) == ms
  {
    StableSortIs(selectors, ms, ms);
  }

  lemma {:induction false} AllBetween(selectors: seq<string>, ms: seq<Candidate>)
    requires forall m :: m in ms ==> Rank(m, selectors) < |selectors|
    ensures Between(selectors, ms, 0, |selectors|) == ms
    decreases |ms|
  {
    if ms != [] { AllBetween(selectors, ms[1..]); }
  }

  // ----- ordering at parse time -----

  /** Candidates with one display name are already in the order of the early selectors. */
  ghost predicate NamesakesInOrder(early: seq<string>, ms: seq<Candidate>) {
    forall i, j :: 0 <= i < j < |ms| && ms[i].Name() == ms[j].Name() ==> Rank(ms[i], early) <= Rank(ms[j], early)
  }

  lemma {:induction false} NamesakesByRank(selectors: seq<string>, ms: seq<Candidate>, name: Candidate, key: Candidate)
    ensures WithKey(selectors, WithKey([], ms, name), key)
            == if key.Name() == name.Name() then WithKey(selectors, ms, key) else []
    decreases |ms|
  {
    if ms != [] {
      NamesakesByRank(selectors, ms[1..], name, key);
      var first := if SameKey([], ms[0], name) then [ms[0]] else [];
      KeyConcat(selectors, first, WithKey([], ms[1..], name), key);
    }
  }

  lemma {:induction false} NamesakesStaySorted(selectors: seq<string>, ms: seq<Candidate>, name: Candidate)
    requires Sorted(selectors, ms)
    ensures Sorted(selectors, WithKey([], ms, name))
    decreases |ms|
  {
    hide Leq;
    if ms != [] {
      var rest := WithKey([], ms[1..], name);
      NamesakesStaySorted(selectors, ms[1..], name);
      forall x | x in rest ensures Leq(selectors, ms[0], x) {
        KeyHolds([], ms[1..], name, x);
        FirstIsLeast(selectors, ms, x);
      }
    }
  }

  lemma {:induction false} NamesakesSorted(early: seq<string>, ms: seq<Candidate>, name: Candidate)
    requires NamesakesInOrder(early, ms)
    ensures Sorted(early, WithKey([], ms, name))
    decreases |ms|
  {
    if ms != [] {
      var rest := WithKey([], ms[1..], name);
      NamesakesSorted(early, ms[1..], name);
      forall x | x in rest && SameKey([], ms[0], name) ensures Leq(early, ms[0], x) {
        KeyHolds([], ms[1..], name, x);
        var k :| 0 <= k < |ms[1..]| && ms[1..][k] == x;
        assert Rank(ms[0], early) <= Rank(ms[k + 1], early);
        LexTotal(x.Name(), ms[0].Name());
      }
    }
  }

  lemma SortedSuffix(selectors: seq<string>, a: seq<Candidate>, b: seq<Candidate>)
    requires Sorted(selectors, a + b)
    ensures Sorted(selectors, b)
  {
    hide Leq;
    forall i, j | 0 <= i < j < |b| ensures Leq(selectors, b[i], b[j]) {
      assert (a + b)[|a| + i] == b[i] && (a + b)[|a| + j] == b[j];
    }
  }

  lemma {:induction false} SortedNamesakes(early: seq<string>, ms: seq<Candidate>, i: nat, j: nat)
    requires i < j < |ms| && ms[i].Name() == ms[j].Name()
    requires Sorted(early, WithKey([], ms, ms[i]))
    ensures Leq(early, ms[i], ms[j])
    decreases |ms|
  {
    hide Leq, Rank, WithKey, Sorted;
    if i == 0 {
      FirstNamesake(early, ms, j);
    } else {
      assert ms[1..][i - 1] == ms[i] && ms[1..][j - 1] == ms[j];
      KeySplits([], ms, ms[i]);
      SortedSuffix(early, if SameKey([], ms[0], ms[i]) then [ms[0]] else [], WithKey([], ms[1..], ms[i]));
      SortedNamesakes(early, ms[1..], i - 1, j - 1);
    }
  }

  lemma FirstNamesake(early: seq<string>, ms: seq<Candidate>, j: nat)
    requires 0 < j < |ms| && ms[0].Name() == ms[j].Name()
    requires Sorted(early, WithKey([], ms, ms[0]))
    ensures Leq(early, ms[0], ms[j])
  {
    hide Leq, WithKey;
    var rest := WithKey([], ms[1..], ms[0]);
    KeySplits([], ms, ms[0]);
    KeyHolds([], ms[1..], ms[0], ms[j]);
    assert ms[j] in ms[1..] by { assert ms[1..][j - 1] == ms[j]; }
    assert WithKey([], ms, ms[0]) == [ms[0]] + rest;
    var k :| 0 <= k < |rest| && rest[k] == ms[j];
    assert WithKey([], ms, ms[0])[0] == ms[0] && WithKey([], ms, ms[0])[k + 1] == ms[j];
  }

  /** Parse-time ordering leaves every name's candidates as they were. */
  lemma EarlyOrderKeepsNames(ms: seq<Candidate>, early: seq<string>, name: Candidate)
    requires NamesakesInOrder(early, ms)
    ensures WithKey([], StableSort(early, ms), name) == WithKey([], ms, name)
  {
    hide WithKey, Leq, Rank, SameKey;
    var parsed := StableSort(early, ms);
    StableSortIsStable(early, ms);
    NamesakesStaySorted(early, parsed, name);
    NamesakesSorted(early, ms, name);
    forall key ensures WithKey(early, WithKey([], parsed, name), key) == WithKey(early, WithKey([], ms, name), key) {
      NamesakesByRank(early, parsed, name, key);
      NamesakesByRank(early, ms, name, key);
      assert WithKey(early, parsed, key) == WithKey(early, ms, key);
    }
    StableSortUnique(early, WithKey([], parsed, name), WithKey([], ms, name));
  }

  lemma SameNamesSameSelection(a: seq<Candidate>, b: seq<Candidate>, later: seq<string>, exclusive: bool)
    requires forall name :: WithKey([], a, name) == WithKey([], b, name)
    ensures Select(a, later, exclusive) == Select(b, later, exclusive)
  {
    hide WithKey, Leq, Rank, SameKey, Sorted, Between, StableSort;
    var n := |later|;
    var from := if exclusive then Between(later, a, 0, n) else a;
    var to := if exclusive then Between(later, b, 0, n) else b;
    StableSortIsStable(later, from);
    forall key ensures WithKey(later, StableSort(later, from), key) == WithKey(later, to, key) {
      KeyWithinName(later, a, key);
      KeyWithinName(later, b, key);
      KeyBetween(later, a, 0, n, key);
      KeyBetween(later, b, 0, n, key);
      assert WithKey([], a, key) == WithKey([], b, key);
      assert WithKey(later, StableSort(later, from), key) == WithKey(later, from, key);
    }
    StableSortIs(later, StableSort(later, from), to);
  }

  /** Ordering candidates when the schema is parsed never changes what the executor selects later, for any
      policy, exactly when candidates that share a display name already stand in the early order. */
  lemma ParseOrderIsInvisible(ms: seq<Candidate>, early: seq<string>)
    ensures (forall later, exclusive ::
               Select(Select(ms, early, false), later, exclusive) == Select(ms, later, exclusive))
            <==> NamesakesInOrder(early, ms)
  {
    var parsed := StableSort(early, ms);
    if NamesakesInOrder(early, ms) {
      forall name ensures WithKey([], parsed, name) == WithKey([], ms, name) { EarlyOrderKeepsNames(ms, early, name); }
      forall later, exclusive ensures Select(parsed, later, exclusive) == Select(ms, later, exclusive) {
        SameNamesSameSelection(parsed, ms, later, exclusive);
      }
    }
    if forall later, exclusive :: Select(Select(ms, early, false), later, exclusive) == Select(ms, later, exclusive) {
      assert Select(parsed, [], false) == Select(ms, [], false);
      StableSortIsStable(early, ms);
      StableSortIsStable([], parsed);
      StableSortIsStable([], ms);
      forall i, j | 0 <= i < j < |ms| && ms[i].Name() == ms[j].Name() ensures Rank(ms[i], early) <= Rank(ms[j], early) {
        NamesakesStaySorted(early, parsed, ms[i]);
        assert WithKey([], parsed, ms[i]) == WithKey([], StableSort([], parsed), ms[i]);
        assert WithKey([], ms, ms[i]) == WithKey([], StableSort([], ms), ms[i]);
        SortedNamesakes(early, ms, i, j);
      }
    }
  }

  /** A download labelled like a package and the package itself: preferring downloads when the schema is parsed
      is still seen by an executor that prefers nothing. */
  lemma NamesakesExample()
    ensures var ms := [Candidate("deb", "", 0), Candidate("http", "deb", 1)];
            exists later, exclusive ::
              Select(Select(ms, ["http"], false), later, exclusive) != Select(ms, later, exclusive)
  {
    var ms := [Candidate("deb", "", 0), Candidate("http", "deb", 1)];
    ParseOrderIsInvisible(ms, ["http"]);
    assert ["http"][1..] == [];
    assert ms[0].Name() == ms[1].Name() && Rank(ms[0], ["http"]) == 1 && Rank(ms[1], ["http"]) == 0;
  }

  /** In particular with distinct display names. */
  lemma DistinctNamesHideParseOrder(ms: seq<Candidate>, early: seq<string>, later: seq<string>, exclusive: bool)
    requires forall i, j :: 0 <= i < j < |ms| ==> ms[i].Name() != ms[j].Name()
    ensures Select(Select(ms, early, false), later, exclusive) == Select(ms, later, exclusive)
  {
    ParseOrderIsInvisible(ms, early);
  }

  // ----- building the selector list -----

  /** The selectors of `order` that a prefix does not already contain. */
  function Unlisted(prefix: seq<string>, order: seq<string>): seq<string> {
    if order == [] then []
    else (if order[0] in prefix then [] else [order[0]]) + Unlisted(prefix, order[1..])
  }

  /** `MergeMethodOrder`: the tool's list, then the default entries it does not name. */
  method MergeMethodOrder(toolOrder: seq<string>, defaultOrder: seq<string>) returns (merged: seq<string>)
    ensures merged == toolOrder + Unlisted(toolOrder, defaultOrder)
  {
    var seen := set k | k in toolOrder;
    merged := toolOrder;
    for i := 0 to |defaultOrder|
      invariant merged + Unlisted(toolOrder, defaultOrder[i..]) == toolOrder + Unlisted(toolOrder, defaultOrder)
    {
      assert defaultOrder[i..][1..] == defaultOrder[i + 1..];
      if defaultOrder[i] !in seen {
        merged := merged + [defaultOrder[i]];
      }
    }
  }

  lemma {:induction false} RankOfConcat(m: Candidate, a: seq<string>, b: seq<string>)
    ensures Rank(m, a + b) == if Rank(m, a) < |a| then Rank(m, a) else |a| + Rank(m, b)
    decreases |a|
  {
    if a == [] {
      assert a + b == b;
    } else {
      assert (a + b)[1..] == a[1..] + b;
      RankOfConcat(m, a[1..], b);
    }
  }

  /** Two selector lists that rank any two candidates alike. */
  ghost predicate RankAlike(s: seq<string>, t: seq<string>) {
    forall a: Candidate, b: Candidate :: Rank(a, s) < Rank(b, s) <==> Rank(a, t) < Rank(b, t)
  }

  /** A selector that occurred before ranks nothing, so it can go. */
  lemma {:induction false} RepeatedSelectorsRankNothing(prefix: seq<string>, order: seq<string>, a: Candidate,
                                                        b: Candidate)
    requires Rank(a, prefix) == |prefix| && Rank(b, prefix) == |prefix|
    ensures Rank(a, Unlisted(prefix, order)) < Rank(b, Unlisted(prefix, order)) <==> Rank(a, order) < Rank(b, order)
    decreases |order|
  {
    if order != [] {
      RepeatedSelectorsRankNothing(prefix, order[1..], a, b);
      RankIsFirstMatch(a, prefix);
      RankIsFirstMatch(b, prefix);
      if order[0] !in prefix {
        assert Unlisted(prefix, order)[1..] == Unlisted(prefix, order[1..]);
      } else {
        assert !a.Matches(order[0]) && !b.Matches(order[0]);
        assert Unlisted(prefix, order) == Unlisted(prefix, order[1..]);
      }
    }
  }

  /** Merging a preference with the defaults selects like the preference followed by all the defaults. */
  lemma PreferenceIsAPrefix(ms: seq<Candidate>, toolOrder: seq<string>, defaultOrder: seq<string>)
    ensures Select(ms, toolOrder + Unlisted(toolOrder, defaultOrder), false)
            == Select(ms, toolOrder + defaultOrder, false)
  {
    var merged, full := toolOrder + Unlisted(toolOrder, defaultOrder), toolOrder + defaultOrder;
    forall a, b ensures Rank(a, merged) < Rank(b, merged) <==> Rank(a, full) < Rank(b, full) {
      RankOfConcat(a, toolOrder, Unlisted(toolOrder, defaultOrder));
      RankOfConcat(b, toolOrder, Unlisted(toolOrder, defaultOrder));
      RankOfConcat(a, toolOrder, defaultOrder);
      RankOfConcat(b, toolOrder, defaultOrder);
      if Rank(a, toolOrder) == |toolOrder| && Rank(b, toolOrder) == |toolOrder| {
        RepeatedSelectorsRankNothing(toolOrder, defaultOrder, a, b);
      }
    }
    RankAlikeSortAlike(merged, full, ms);
  }

  lemma {:induction false} RankAlikeSortAlike(s: seq<string>, t: seq<string>, ms: seq<Candidate>)
    requires RankAlike(s, t)
    ensures StableSort(s, ms) == StableSort(t, ms)
    decreases |ms|
  {
    if ms != [] {
      RankAlikeSortAlike(s, t, ms[1..]);
      RankAlikeInsertAlike(s, t, ms[0], StableSort(s, ms[1..]));
    }
  }

  lemma {:induction false} RankAlikeInsertAlike(s: seq<string>, t: seq<string>, m: Candidate, ms: seq<Candidate>)
    requires RankAlike(s, t)
    ensures Insert(s, m, ms) == Insert(t, m, ms)
    decreases |ms|
  {
    if ms != [] {
      hide Rank;
      RankAlikeInsertAlike(s, t, m, ms[1..]);
      assert Rank(m, s) < Rank(ms[0], s) <==> Rank(m, t) < Rank(ms[0], t);
      assert Rank(ms[0], s) < Rank(m, s) <==> Rank(ms[0], t) < Rank(m, t);
    }
  }

  /** References to the machine's own package manager, resolved: where it is named, there stands `native`,
      and nowhere else. */
  function ExpandedEntry(entry: string, manager: string, named: bool): seq<string> {
    if entry == "native" && named then []
    else if entry == manager then ["native"]
    else [entry]
  }

  function Expanded(order: seq<string>, manager: string, named: bool): seq<string> {
    if order == [] then [] else ExpandedEntry(order[0], manager, named) + Expanded(order[1..], manager, named)
  }

  method Lists(order: seq<string>, manager: string) returns (named: bool)
    ensures named <==> manager in order
  {
    named := false;
    for i := 0 to |order|
      invariant !named && manager !in order[..i]
    {
      if order[i] == manager {
        return true;
      }
    }
    assert order[..|order|] == order;
  }

  method ExpandMethodOrder(order: seq<string>, manager: string) returns (expanded: seq<string>)
    ensures expanded == if manager == "" then order else Expanded(order, manager, manager in order)
  {
    if manager == "" {
      return order;
    }
    var named := Lists(order, manager);
    expanded := [];
    for i := 0 to |order|
      invariant expanded + Expanded(order[i..], manager, named) == Expanded(order, manager, named)
    {
      var entry: seq<string> := [order[i]];
      if order[i] == "native" && named {
        entry := [];
      } else if order[i] == manager {
        entry := ["native"];
      }
      assert entry == ExpandedEntry(order[i], manager, named);
      assert order[i..][1..] == order[i + 1..];
      Regroup(expanded, entry, Expanded(order[i + 1..], manager, named));
      expanded := expanded + entry;
    }
  }

  /** After expansion the manager is not named any more, `native` is there exactly when either was, and
      expanding again changes nothing. */
  lemma {:induction false} ExpansionResolves(order: seq<string>, manager: string, named: bool)
    requires manager != "" && manager != "native" && (manager in order ==> named)
    ensures var once := Expanded(order, manager, named);
            && manager !in once
            && ("native" in once <==> manager in order || (!named && "native" in order))
            && Expanded(once, manager, false) == once
    decreases |order|
  {
    if order != [] {
      assert order == [order[0]] + order[1..];
      ExpansionResolves(order[1..], manager, named);
      var once, rest := Expanded(order, manager, named), Expanded(order[1..], manager, named);
      if once != rest {
        assert once[1..] == rest;
      }
    }
  }
}
