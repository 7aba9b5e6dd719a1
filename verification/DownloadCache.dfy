/**
 The download cache: entries named by a hash, recency kept as modification time, and eviction of the
 least recently used ones with a running total.
 */
module DownloadCache {
  import opened Basics

  type Name = string

  datatype File = File(size: nat, mod: int, symlink: bool)

  datatype Item = Item(name: Name, size: nat, mod: int)

  predicate Hex(c: char) { '0' <= c <= '9' || 'a' <= c <= 'f' }

  /** The names of finished entries; staging files of a concurrent store have other names. */
  predicate EntryName(name: Name) {
    |name| == 64 && forall i :: 0 <= i < |name| ==> Hex(name[i])
  }

  method IsCacheEntryName(name: Name) returns (ok: bool)
    ensures ok <==> EntryName(name)
  {
    if |name| != 64 {
      return false;
    }
    for i := 0 to |name|
      invariant forall j :: 0 <= j < i ==> Hex(name[j])
    {
      if (name[i] < '0' || name[i] > '9') && (name[i] < 'a' || name[i] > 'f') {
        return false;
      }
    }
    return true;
  }

  // ----- eviction over a list, oldest first -----

  function Bytes(items: seq<Item>): nat {
    if items == [] then 0 else items[0].size + Bytes(items[1..])
  }

  /** What stays when victims are taken from the front while the total is over the limit; an entry that
      cannot be removed stays and is stepped over. */
  function Kept(items: seq<Item>, total: int, limit: int, stuck: set<Name>): seq<Item>
    decreases |items|
  {
    if items == [] || total <= limit then items
    else if items[0].name in stuck then [items[0]] + Kept(items[1..], total, limit, stuck)
    else Kept(items[1..], total - items[0].size, limit, stuck)
  }

  function Stuck(items: seq<Item>, stuck: set<Name>): seq<Item> {
    if items == [] then []
    else if items[0].name in stuck then [items[0]] + Stuck(items[1..], stuck)
    else Stuck(items[1..], stuck)
  }

  predicate OldestFirst(items: seq<Item>) {
    forall i, j :: 0 <= i < j < |items| ==> items[i].mod <= items[j].mod
  }

  predicate DistinctNames(items: seq<Item>) {
    forall i, j :: 0 <= i < j < |items| ==> items[i].name != items[j].name
  }

  lemma {:induction false} KeptArePart(items: seq<Item>, total: int, limit: int, stuck: set<Name>, x: Item)
    requires x in Kept(items, total, limit, stuck)
    ensures x in items
    decreases |items|
  {
    if items != [] && total > limit {
      var rest := if items[0].name in stuck then total else total - items[0].size;
      if x !in Kept(items[1..], rest, limit, stuck) {
        assert x == items[0];
      } else {
        KeptArePart(items[1..], rest, limit, stuck, x);
      }
    }
  }

  /** Eviction brings the counted bytes under the limit exactly when what cannot be removed fits. `beside` are
      the bytes of entries that were stepped over before. */
  lemma {:induction false} WithinLimitExactlyWhere(items: seq<Item>, beside: nat, limit: int, stuck: set<Name>)
    ensures beside + Bytes(Kept(items, beside + Bytes(items), limit, stuck)) <= limit
            <==> beside + Bytes(Stuck(items, stuck)) <= limit
    decreases |items|
  {
    StuckAreFewer(items, stuck);
    if items != [] && beside + Bytes(items) > limit {
      if items[0].name in stuck {
        WithinLimitExactlyWhere(items[1..], beside + items[0].size, limit, stuck);
        assert Stuck(items, stuck)[1..] == Stuck(items[1..], stuck);
      } else {
        WithinLimitExactlyWhere(items[1..], beside, limit, stuck);
      }
    }
  }

  /** Two entries, of which the older one cannot be removed and fills the cache: the limit is exceeded for good,
      and the entry just stored, which would fit alone, goes. */
  lemma StuckEntryExample(a: Name, b: Name)
    requires a != b
    ensures var items := [Item(a, 7, 0), Item(b, 3, 1)];
            && Kept(items, Bytes(items), 5, {a}) == [Item(a, 7, 0)]
            && Bytes(Kept(items, Bytes(items), 5, {a})) > 5
  {
    var items := [Item(a, 7, 0), Item(b, 3, 1)];
    assert items[1..] == [Item(b, 3, 1)] && items[1..][1..] == [];
    assert Kept(items[1..], 10, 5, {a}) == [];
    assert Kept(items, 10, 5, {a}) == [items[0]] + [];
    assert [items[0]][1..] == [] && Bytes([items[0]]) == 7 + Bytes([]);
  }

  /** No victim is newer than a survivor that could have been deleted. */
  lemma {:induction false} OldestGoFirst(items: seq<Item>, total: int, limit: int, stuck: set<Name>, victim: Item,
                                         survivor: Item)
    requires OldestFirst(items)
    requires victim in items && victim !in Kept(items, total, limit, stuck)
    requires survivor in Kept(items, total, limit, stuck) && survivor.name !in stuck
    ensures victim.mod <= survivor.mod
    decreases |items|
  {
    if items != [] && total > limit {
      var rest := items[1..];
      if items[0].name in stuck {
        OldestGoFirst(rest, total, limit, stuck, victim, survivor);
      } else {
        KeptArePart(rest, total - items[0].size, limit, stuck, survivor);
        if victim == items[0] {
          var k :| 0 <= k < |rest| && rest[k] == survivor;
          assert items[0].mod <= items[k + 1].mod;
        } else {
          OldestGoFirst(rest, total - items[0].size, limit, stuck, victim, survivor);
        }
      }
    }
  }

  /** A victim that is needed: with it back, the limit is exceeded; no victim is newer. */
  predicate LastVictim(items: seq<Item>, kept: seq<Item>, beside: nat, limit: int, stuck: set<Name>, last: Item) {
    && last in items && last.name !in stuck
    && beside + Bytes(kept) + last.size > limit
    && forall victim :: victim in items && victim !in kept && victim.name !in stuck ==> victim.mod <= last.mod
  }

  lemma {:induction false} FindLastVictim(items: seq<Item>, beside: nat, limit: int, stuck: set<Name>)
      returns (last: Item)
    requires OldestFirst(items)
    requires Kept(items, beside + Bytes(items), limit, stuck) != items
    ensures LastVictim(items, Kept(items, beside + Bytes(items), limit, stuck), beside, limit, stuck, last)
    decreases |items|
  {
    hide *;
    var total := beside + Bytes(items);
    KeptUnfolds(items, total, limit, stuck);
    var first, rest := items[0], items[1..];
    assert items == [first] + rest;
    OlderRest(items);
    if first.name in stuck {
      last := FindLastVictim(rest, beside + first.size, limit, stuck);
      VictimBehindStuck(first, rest, Kept(rest, total, limit, stuck), beside, limit, stuck, last);
    } else if Kept(items, total, limit, stuck) == rest {
      last := first;
      OnlyVictim(first, rest, beside, limit, stuck);
    } else {
      last := FindLastVictim(rest, beside, limit, stuck);
      VictimBehindVictim(first, rest, Kept(items, total, limit, stuck), beside, limit, stuck, last);
    }
  }

  lemma OnlyVictim(first: Item, rest: seq<Item>, beside: nat, limit: int, stuck: set<Name>)
    requires first.name !in stuck && beside + first.size + Bytes(rest) > limit
    ensures LastVictim([first] + rest, rest, beside, limit, stuck, first)
  {
  }

  lemma OlderRest(items: seq<Item>)
    requires OldestFirst(items) && items != []
    ensures OldestFirst(items[1..]) && forall x :: x in items[1..] ==> items[0].mod <= x.mod
  {
  }

  lemma VictimBehindStuck(first: Item, rest: seq<Item>, kept: seq<Item>, beside: nat, limit: int, stuck: set<Name>,
                          last: Item)
    requires LastVictim(rest, kept, beside + first.size, limit, stuck, last) && first.name in stuck
    ensures LastVictim([first] + rest, [first] + kept, beside, limit, stuck, last)
  {
    assert ([first] + kept)[1..] == kept;
  }

  lemma VictimBehindVictim(first: Item, rest: seq<Item>, kept: seq<Item>, beside: nat, limit: int, stuck: set<Name>,
                           last: Item)
    requires LastVictim(rest, kept, beside, limit, stuck, last) && forall x :: x in rest ==> first.mod <= x.mod
    ensures LastVictim([first] + rest, kept, beside, limit, stuck, last)
  {
  }

  /** Nothing goes needlessly: putting the last victim back would exceed the limit. */
  lemma LastVictimWasNeeded(items: seq<Item>, kept: seq<Item>, beside: nat, limit: int, stuck: set<Name>)
    requires OldestFirst(items)
    requires kept == Kept(items, beside + Bytes(items), limit, stuck) && kept != items
    ensures exists last :: LastVictim(items, kept, beside, limit, stuck, last)
  {
    var last := FindLastVictim(items, beside, limit, stuck);
  }

  lemma {:induction false} BytesOfConcat(a: seq<Item>, b: seq<Item>)
    ensures Bytes(a + b) == Bytes(a) + Bytes(b)
    decreases |a|
  {
    if a == [] {
      assert a + b == b;
    } else {
      assert (a + b)[1..] == a[1..] + b;
      BytesOfConcat(a[1..], b);
    }
  }

  predicate NotNamed(items: seq<Item>, name: Name) {
    forall x :: x in items ==> x.name != name
  }

  /** The newest entry survives exactly when it cannot be removed, or fits beside what cannot. */
  lemma {:induction false} NewestSurvives(older: seq<Item>, newest: Item, beside: nat, limit: int, stuck: set<Name>)
    requires NotNamed(older, newest.name)
    ensures newest in Kept(older + [newest], beside + Bytes(older + [newest]), limit, stuck)
            <==> newest.name in stuck || beside + Bytes(Stuck(older, stuck)) + newest.size <= limit
    decreases |older|
  {
    var items := older + [newest];
    BytesOfConcat(older, [newest]);
    assert Bytes([newest]) == newest.size;
    StuckAreFewer(older, stuck);
    if older == [] {
      assert items == [newest];
    } else if beside + Bytes(items) > limit {
      var first, rest := older[0], older[1..];
      assert items == [first] + (rest + [newest]);
      assert older == [first] + rest;
      var step := beside + if first.name in stuck then first.size else 0;
      NewestSurvives(rest, newest, step, limit, stuck);
      assert items[1..] == rest + [newest];
      assert newest != first;
    }
  }

  lemma {:induction false} StuckAreFewer(items: seq<Item>, stuck: set<Name>)
    ensures Bytes(Stuck(items, stuck)) <= Bytes(items)
    decreases |items|
  {
    if items != [] {
      StuckAreFewer(items[1..], stuck);
      if items[0].name in stuck { assert Stuck(items, stuck)[1..] == Stuck(items[1..], stuck); }
    }
  }

  // ----- the directory -----

  predicate Elsewhere(f: Name, files: map<Name, File>, unreadable: set<Name>) {
    f in files ==> !EntryName(f) || files[f].symlink || f in unreadable
  }

  /** `items` lists the entries of a directory, each once. */
  predicate Lists(items: seq<Item>, files: map<Name, File>, unreadable: set<Name>) {
    && DistinctNames(items)
    && (forall x :: x in items ==> x.name in files && x == Item(x.name, files[x.name].size, files[x.name].mod)
                                   && !Elsewhere(x.name, files, unreadable))
    && (forall f :: f in files && !Elsewhere(f, files, unreadable) ==> Item(f, files[f].size, files[f].mod) in items)
  }

  /** The names evicted when `order` shrinks to `kept`. */
  function Victims(order: seq<Item>, kept: seq<Item>): set<Name> {
    (set x | x in order :: x.name) - (set x | x in kept :: x.name)
  }

  /** The same items in another order. */
  predicate Rearranged(a: seq<Item>, b: seq<Item>) {
    && DistinctNames(a) && Bytes(a) == Bytes(b)
    && (forall x :: x in a ==> x in b) && (forall x :: x in b ==> x in a)
    && |a| == |b|
  }

  /** The library's sort by age; entries of one age may come in any order. */
  method SortByAge(items: seq<Item>) returns (sorted: seq<Item>)
    requires DistinctNames(items)
    ensures OldestFirst(sorted) && Rearranged(sorted, items)
  {
    sorted := [];
    for i := 0 to |items|
      invariant OldestFirst(sorted) && Rearranged(sorted, items[..i])
    {
      var x := items[i];
      assert items[..i + 1] == items[..i] + [x];
      sorted := InsertByAge(sorted, x, items[..i]);
    }
    assert items[..|items|] == items;
  }

  method InsertByAge(sorted: seq<Item>, x: Item, ghost items: seq<Item>) returns (more: seq<Item>)
    requires OldestFirst(sorted) && Rearranged(sorted, items) && DistinctNames(items + [x])
    ensures OldestFirst(more) && Rearranged(more, items + [x])
  {
    hide Rearranged, DistinctNames, OldestFirst;
    var p := |sorted|;
    while p > 0 && sorted[p - 1].mod > x.mod
      invariant 0 <= p <= |sorted|
      invariant forall k :: p <= k < |sorted| ==> sorted[k].mod > x.mod
    {
      p := p - 1;
    }
    InsertRearranges(sorted, p, x, items);
    InsertSorted(sorted, p, x);
    more := sorted[..p] + ([x] + sorted[p..]);
  }

  lemma InsertSorted(sorted: seq<Item>, p: nat, x: Item)
    requires p <= |sorted| && OldestFirst(sorted)
    requires p > 0 ==> sorted[p - 1].mod <= x.mod
    requires forall k :: p <= k < |sorted| ==> sorted[k].mod > x.mod
    ensures OldestFirst(sorted[..p] + ([x] + sorted[p..]))
  {
    var more := sorted[..p] + ([x] + sorted[p..]);
    assert forall k :: 0 <= k < p ==> more[k] == sorted[k];
    assert more[p] == x;
    assert forall k :: p < k < |more| ==> more[k] == sorted[k - 1];
  }

  lemma InsertDistinct(sorted: seq<Item>, p: nat, x: Item)
    requires p <= |sorted| && DistinctNames(sorted) && NotNamed(sorted, x.name)
    ensures DistinctNames(sorted[..p] + ([x] + sorted[p..]))
  {
    var more := sorted[..p] + ([x] + sorted[p..]);
    assert forall k :: 0 <= k < p ==> more[k] == sorted[k];
    assert more[p] == x;
    assert forall k :: p < k < |more| ==> more[k] == sorted[k - 1];
  }

  lemma LastIsNew(items: seq<Item>, x: Item)
    requires DistinctNames(items + [x])
    ensures NotNamed(items, x.name)
  {
    forall y | y in items ensures y.name != x.name {
      var k :| 0 <= k < |items| && items[k] == y;
      assert (items + [x])[k] == y && (items + [x])[|items|] == x;
    }
  }

  lemma InsertBytes(sorted: seq<Item>, p: nat, x: Item)
    requires p <= |sorted|
    ensures Bytes(sorted[..p] + ([x] + sorted[p..])) == Bytes(sorted) + x.size
  {
    assert sorted == sorted[..p] + sorted[p..];
    BytesOfConcat(sorted[..p], sorted[p..]);
    BytesOfConcat(sorted[..p], [x] + sorted[p..]);
    assert ([x] + sorted[p..])[1..] == sorted[p..];
  }

  lemma InsertRearranges(sorted: seq<Item>, p: nat, x: Item, items: seq<Item>)
    requires p <= |sorted| && Rearranged(sorted, items) && DistinctNames(items + [x])
    ensures Rearranged(sorted[..p] + ([x] + sorted[p..]), items + [x])
  {
    hide DistinctNames, Bytes;
    LastIsNew(items, x);
    InsertDistinct(sorted, p, x);
    InsertBytes(sorted, p, x);
    InsertBytes(items, |items|, x);
    assert items[..|items|] + ([x] + items[|items|..]) == items + [x];
    assert sorted == sorted[..p] + sorted[p..];
    forall y | y in items + [x] ensures y in sorted[..p] + ([x] + sorted[p..]) {
      if y != x { assert y in sorted; }
    }
  }

  class Directory {
    var files: map<Name, File>
    const undeletable: set<Name>
    const unreadable: set<Name>
    /** Entries that another process removes between the listing and the removal. */
    const vanishing: set<Name>

    constructor (files: map<Name, File>, undeletable: set<Name>, unreadable: set<Name>, vanishing: set<Name>)
      ensures this.files == files && this.undeletable == undeletable && this.unreadable == unreadable
      ensures this.vanishing == vanishing
    {
      this.files, this.undeletable, this.unreadable, this.vanishing := files, undeletable, unreadable, vanishing;
    }

    /** What cannot be removed: it stays, or it is gone already. Either way its bytes stay in the total. */
    function Stepped(): set<Name> { undeletable + vanishing }

    /** The finished entries that can be inspected, with the total of their sizes. */
    method Entries() returns (items: seq<Item>, total: nat)
      ensures Lists(items, files, unreadable) && DistinctNames(items) && total == Bytes(items)
    {
      items, total := [], 0;
      var pending := files.Keys;
      while pending != {}
        invariant pending <= files.Keys
        invariant Lists(items, files - pending, unreadable) && total == Bytes(items)
      {
        var name :| name in pending;
        ghost var before := files - pending;
        pending := pending - {name};
        assert files - pending == before[name := files[name]];
        var entry := IsCacheEntryName(name);
        if entry && !files[name].symlink && name !in unreadable {
          ListsMore(items, before, unreadable, name, files[name]);
          BytesOfConcat(items, [Item(name, files[name].size, files[name].mod)]);
          items := items + [Item(name, files[name].size, files[name].mod)];
          total := total + files[name].size;
        }
      }
      assert files - {} == files;
    }

    /** Removes the oldest entries while the total exceeds the limit. Whatever order a sort by age gives,
        exactly what `Kept` drops is gone, beside what vanished, and nothing else in the directory
        changed. The bytes counted as left are within the limit exactly when what cannot be removed
        fits. */
    method Evict(limit: int) returns (removed: nat, ghost order: seq<Item>)
      modifies this
      ensures Lists(order, old(files), unreadable) && OldestFirst(order)
      ensures limit <= 0 ==> files == old(files) && removed == 0
      ensures limit > 0 ==>
        && files == (old(files) - vanishing) - Victims(order, Kept(order, Bytes(order), limit, Stepped()))
        && removed == |order| - |Kept(order, Bytes(order), limit, Stepped())|
      ensures Bytes(Kept(order, Bytes(order), limit, Stepped())) <= limit <==> Bytes(Stuck(order, Stepped())) <= limit
    {
      hide Lists, Kept, Victims, Stuck;
      var items, total := Entries();
      var sorted := SortByAge(items);
      SameEntries(items, sorted, files, unreadable);
      order := sorted;
      WithinLimitExactlyWhere(order, 0, limit, Stepped());
      if limit <= 0 {
        return 0, order;
      }
      files := files - vanishing;
      removed := Sweep(sorted, total, limit);
    }

    method Sweep(sorted: seq<Item>, start: int, limit: int) returns (removed: nat)
      requires DistinctNames(sorted)
      modifies this
      ensures files == old(files) - Victims(sorted, Kept(sorted, start, limit, Stepped()))
      ensures removed == |sorted| - |Kept(sorted, start, limit, Stepped())|
    {
      hide *;
      var total := start;
      removed := 0;
      ghost var kept: seq<Item>, rest := [], sorted;
      var i := 0;
      assert sorted[..0] == [];
      GoneMore(files, {}, "");
      while i < |sorted| && total > limit
        invariant 0 <= i <= |sorted| && rest == sorted[i..]
        invariant kept + Kept(rest, total, limit, Stepped()) == Kept(sorted, start, limit, Stepped())
        invariant files == old(files) - Victims(sorted[..i], kept)
        invariant removed == i - |kept|
        invariant forall x :: x in kept ==> x in sorted[..i]
      {
        var it := sorted[i];
        assert sorted[..i + 1] == sorted[..i] + [it] && rest[1..] == sorted[i + 1..];
        VictimsMore(sorted, i, kept);
        KeptUnfolds(rest, total, limit, Stepped());
        if it.name in Stepped() {
          Regroup(kept, [it], Kept(rest[1..], total, limit, Stepped()));
          kept := kept + [it];
        } else {
          GoneMore(old(files), Victims(sorted[..i], kept), it.name);
          files := files - {it.name};
          total := total - it.size;
          removed := removed + 1;
        }
        rest := rest[1..];
        i := i + 1;
      }
      KeptUnfolds(rest, total, limit, Stepped());
      VictimsDone(sorted, i, kept);
    }
  }

  lemma GoneMore(files: map<Name, File>, gone: set<Name>, name: Name)
    ensures files - Victims([], []) == files
    ensures (files - gone) - {name} == files - (gone + {name})
  {
  }

  lemma KeptUnfolds(items: seq<Item>, total: int, limit: int, stuck: set<Name>)
    ensures items == [] || total <= limit ==> Kept(items, total, limit, stuck) == items
    ensures items != [] && total > limit ==>
              Kept(items, total, limit, stuck)
              == if items[0].name in stuck then [items[0]] + Kept(items[1..], total, limit, stuck)
                 else Kept(items[1..], total - items[0].size, limit, stuck)
    ensures items != [] ==> Bytes(items) == items[0].size + Bytes(items[1..])
  {
  }

  lemma ListsMore(items: seq<Item>, files: map<Name, File>, unreadable: set<Name>, name: Name, file: File)
    requires Lists(items, files, unreadable) && name !in files
    requires EntryName(name) && !file.symlink && name !in unreadable
    ensures Lists(items + [Item(name, file.size, file.mod)], files[name := file], unreadable)
  {
    hide EntryName;
    var more := items + [Item(name, file.size, file.mod)];
    forall i, j | 0 <= i < j < |more| ensures more[i].name != more[j].name {
      assert more[i] in items;
    }
  }

  lemma SameEntries(items: seq<Item>, sorted: seq<Item>, files: map<Name, File>, unreadable: set<Name>)
    requires Lists(items, files, unreadable) && Rearranged(sorted, items)
    ensures Lists(sorted, files, unreadable)
  {
    hide EntryName;
  }

  lemma VictimsMore(order: seq<Item>, i: nat, kept: seq<Item>)
    requires i < |order| && DistinctNames(order) && forall x :: x in kept ==> x in order[..i]
    ensures Victims(order[..i + 1], kept + [order[i]]) == Victims(order[..i], kept)
    ensures Victims(order[..i + 1], kept) == Victims(order[..i], kept) + {order[i].name}
  {
    assert order[..i + 1] == order[..i] + [order[i]];
    forall x | x in order[..i] ensures x.name != order[i].name {
      var k :| 0 <= k < i && order[k] == x;
    }
  }

  lemma VictimsDone(order: seq<Item>, i: nat, kept: seq<Item>)
    requires i <= |order| && DistinctNames(order) && forall x :: x in kept ==> x in order[..i]
    ensures Victims(order[..i], kept) == Victims(order, kept + order[i..])
  {
    assert order == order[..i] + order[i..];
    forall x, y | x in order[..i] && y in order[i..] ensures x.name != y.name {
      var k :| 0 <= k < i && order[k] == x;
      var l :| 0 <= l < |order[i..]| && order[i..][l] == y;
      assert order[i + l] == y;
    }
  }

  // ----- stores and lookups -----

  /** The bytes of the entries that cannot be removed, other than `key`. */
  function StuckBeside(order: seq<Item>, key: Name, stuck: set<Name>): nat {
    Bytes(Stuck(order, stuck - {key}))
  }

  lemma {:induction false} StuckSplits(order: seq<Item>, newest: Item, stuck: set<Name>)
    requires NotNamed(order, newest.name)
    ensures Bytes(Stuck(order + [newest], stuck - {newest.name})) == Bytes(Stuck(order, stuck))
    decreases |order|
  {
    if order == [] {
      assert [] + [newest] == [newest];
      assert Stuck([newest], stuck - {newest.name}) == [];
    } else {
      var first, rest := order[0], order[1..];
      var all := order + [newest];
      assert all[1..] == rest + [newest] && order == [first] + rest;
      StuckSplits(rest, newest, stuck);
    }
  }

  /** After a store, whatever order the sort gave: the entry just stored is there exactly when it cannot be
      deleted, or its size fits the limit beside the entries that cannot. When every deletion succeeds it
      goes only if it alone exceeds the limit. */
  lemma NewestGoesOnlyAlone(files: map<Name, File>, unreadable: set<Name>, order: seq<Item>, key: Name, limit: int,
                            stuck: set<Name>)
    requires Lists(order, files, unreadable) && OldestFirst(order)
    requires key in files && !Elsewhere(key, files, unreadable)
    requires forall f :: f in files && f != key ==> files[f].mod < files[key].mod
    ensures var gone := Victims(order, Kept(order, Bytes(order), limit, stuck));
            && (key !in gone <==> key in stuck || StuckBeside(order, key, stuck) + files[key].size <= limit)
            && (stuck == {} ==> (key in gone <==> files[key].size > limit))
  {
    hide EntryName, Kept, Stuck, Bytes;
    var newest := Item(key, files[key].size, files[key].mod);
    var kept := Kept(order, Bytes(order), limit, stuck);
    var older := NewestIsLast(files, unreadable, order, key);
    LastIsNew(older, newest);
    NewestSurvives(older, newest, 0, limit, stuck);
    StuckSplits(older, newest, stuck);
    assert key in Victims(order, kept) <==> newest !in kept by {
      forall x | x in kept && x.name == key ensures x == newest { KeptArePart(order, Bytes(order), limit, stuck, x); }
    }
    if stuck == {} {
      assert stuck - {key} == {};
      NothingStuck(order);
    }
  }

  lemma NewestIsLast(files: map<Name, File>, unreadable: set<Name>, order: seq<Item>, key: Name)
      returns (older: seq<Item>)
    requires Lists(order, files, unreadable) && OldestFirst(order)
    requires key in files && !Elsewhere(key, files, unreadable)
    requires forall f :: f in files && f != key ==> files[f].mod < files[key].mod
    ensures order == older + [Item(key, files[key].size, files[key].mod)]
  {
    hide EntryName;
    var newest := Item(key, files[key].size, files[key].mod);
    assert newest in order;
    var k :| 0 <= k < |order| && order[k] == newest;
    older := order[..|order| - 1];
    var last := order[|order| - 1];
    assert last in order && order[k].mod <= last.mod;
    assert last.name == key;
  }

  lemma {:induction false} NothingStuck(items: seq<Item>)
    ensures Stuck(items, {}) == [] && Bytes(Stuck(items, {})) == 0
    decreases |items|
  {
    if items != [] { NothingStuck(items[1..]); }
  }

  class Cache {
    var directory: Directory
    var clock: int
    const limit: int

    /** The clock runs ahead of every time in the directory, which holds regular files. */
    predicate Valid()
      reads this, directory
    {
      && (forall f :: f in directory.files ==> directory.files[f].mod < clock)
      && directory.unreadable == {}
    }

    constructor (directory: Directory, limit: int)
      requires directory.files == map[] && directory.unreadable == {}
      ensures Valid() && this.directory == directory && this.limit == limit
    {
      this.directory, this.limit, this.clock := directory, limit, 0;
    }

    /** A hit refreshes the entry's time and touches nothing else. */
    method Lookup(key: Name) returns (hit: bool)
      requires Valid()
      modifies this`clock, directory
      ensures Valid() && directory == old(directory)
      ensures hit <==> key in old(directory.files) && !old(directory.files)[key].symlink
      ensures !hit ==> directory.files == old(directory.files)
      ensures hit ==>
        && directory.files == old(directory.files)[key := old(directory.files)[key].(mod := old(clock))]
        && forall f :: f in directory.files && f != key ==> directory.files[f].mod < directory.files[key].mod
    {
      var now := clock;
      clock := clock + 1;
      if key !in directory.files || directory.files[key].symlink {
        return false;
      }
      directory.files := directory.files[key := directory.files[key].(mod := now)];
      return true;
    }

    /** The file is in place under its key, the newest of all; then the cache shrinks to its limit. Every
        survivor is as it was, and what was stored goes only when it does not fit beside what cannot be
        removed, or vanishes. */
    method Store(key: Name, size: nat) returns (ghost order: seq<Item>)
      requires Valid() && EntryName(key)
      modifies this`clock, directory
      ensures Valid() && directory == old(directory)
      ensures forall f :: f in directory.files && f != key ==>
        f in old(directory.files) && directory.files[f] == old(directory.files)[f]
      ensures key in directory.files ==> directory.files[key] == File(size, old(clock), false)
      ensures Lists(order, old(directory.files)[key := File(size, old(clock), false)], {})
      ensures key in directory.files <==>
        || limit <= 0
        || (key !in directory.vanishing
            && (key in directory.undeletable || StuckBeside(order, key, directory.Stepped()) + size <= limit))
      ensures directory.Stepped() == {} && limit > 0 ==> (key in directory.files <==> size <= limit)
    {
      hide Lists, Kept, Victims, EntryName, StuckBeside;
      var now := clock;
      clock := clock + 1;
      ghost var stored := directory.files[key := File(size, now, false)];
      directory.files := directory.files[key := File(size, now, false)];
      var removed;
      removed, order := directory.Evict(limit);
      NewestGoesOnlyAlone(stored, {}, order, key, limit, directory.Stepped());
    }
  }
}
