/**
 Concrete npm versions. The check works by successive splitting; it accepts exactly the strings of the
 version grammar in items 2, 9 and 10 of Semantic Versioning 2.0.0.
 */
module NpmVersion {
  import opened Strings

  predicate Digit(c: char) { '0' <= c <= '9' }

  predicate IdentifierChar(c: char) { Digit(c) || 'A' <= c <= 'Z' || 'a' <= c <= 'z' || c == '-' }

  predicate All(s: string, p: char -> bool) { forall i :: 0 <= i < |s| ==> p(s[i]) }

  // ----- the grammar -----

  /** Item 2: a number without leading zeroes. */
  predicate Number(s: string) {
    s != "" && All(s, Digit) && (|s| > 1 ==> s[0] != '0')
  }

  /** Item 10: a non-empty identifier. */
  predicate BuildIdentifier(s: string) {
    s != "" && All(s, IdentifierChar)
  }

  /** Item 9: an identifier that has no leading zeroes if it is numeric. */
  predicate PreReleaseIdentifier(s: string) {
    BuildIdentifier(s) && (All(s, Digit) && |s| > 1 ==> s[0] != '0')
  }

  /** A version by its parts; no identifiers means that the part is absent. */
  datatype Version = Version(core: seq<string>, preRelease: seq<string>, build: seq<string>) {
    predicate WellFormed() {
      && |core| == 3 && (forall n :: n in core ==> Number(n))
      && (forall i :: i in preRelease ==> PreReleaseIdentifier(i))
      && (forall i :: i in build ==> BuildIdentifier(i))
    }

    function Front(): string
      requires core != []
    {
      Join(core, '.') + Suffix('-', preRelease)
    }

    function Print(): string
      requires core != []
    {
      Front() + Suffix('+', build)
    }
  }

  function Suffix(mark: char, identifiers: seq<string>): string {
    if identifiers == [] then "" else [mark] + Join(identifiers, '.')
  }

  ghost predicate SemVer(s: string) {
    exists v: Version :: v.WellFormed() && v.Print() == s
  }

  // ----- the check -----

  /** What the check amounts to, in terms of the splits. */
  predicate Accepted(s: string) {
    var (front, build, hasBuild) := Cut(s, '+');
    var (core, pre, hasPre) := Cut(front, '-');
    && (hasBuild ==> forall i :: i in Split(build, '.') ==> BuildIdentifier(i))
    && |Split(core, '.')| == 3
    && (forall n :: n in Split(core, '.') ==> Number(n))
    && (hasPre ==> forall i :: i in Split(pre, '.') ==> PreReleaseIdentifier(i))
  }

  method ValidCoreNumber(value: string) returns (ok: bool)
    ensures ok <==> Number(value)
  {
    if value == "" || (|value| > 1 && value[0] == '0') {
      return false;
    }
    for i := 0 to |value|
      invariant forall j :: 0 <= j < i ==> Digit(value[j])
    {
      if !Digit(value[i]) {
        return false;
      }
    }
    return true;
  }

  method ValidIdentifier(identifier: string, rejectLeadingZero: bool) returns (ok: bool)
    ensures ok <==> if rejectLeadingZero then PreReleaseIdentifier(identifier) else BuildIdentifier(identifier)
  {
    if identifier == "" {
      return false;
    }
    var numeric := true;
    for i := 0 to |identifier|
      invariant forall j :: 0 <= j < i ==> IdentifierChar(identifier[j])
      invariant numeric <==> forall j :: 0 <= j < i ==> Digit(identifier[j])
    {
      if !Digit(identifier[i]) {
        numeric := false;
      }
      if !IdentifierChar(identifier[i]) {
        return false;
      }
    }
    return !(rejectLeadingZero && numeric && |identifier| > 1 && identifier[0] == '0');
  }

  method ValidIdentifiers(value: string, rejectLeadingZero: bool) returns (ok: bool)
    ensures ok <==> forall i :: i in Split(value, '.') ==>
      if rejectLeadingZero then PreReleaseIdentifier(i) else BuildIdentifier(i)
  {
    var identifiers := Split(value, '.');
    if value == "" {
      assert identifiers == [""];
      assert identifiers[0] in identifiers;
      return false;
    }
    for k := 0 to |identifiers|
      invariant forall j :: 0 <= j < k ==>
        if rejectLeadingZero then PreReleaseIdentifier(identifiers[j]) else BuildIdentifier(identifiers[j])
    {
      var valid := ValidIdentifier(identifiers[k], rejectLeadingZero);
      if !valid {
        assert identifiers[k] in identifiers;
        return false;
      }
    }
    return true;
  }

  method ValidNPMVersion(version: string) returns (ok: bool)
    ensures ok <==> SemVer(version)
  {
    AcceptedIsSemVer(version);
    if version == "" || '\0' in version {
      forall v: Version | v.WellFormed() ensures v.Print() != version { PrintedIsClean(v); }
      return false;
    }
    var (front, build, hasBuild) := Cut(version, '+');
    if hasBuild {
      var valid := ValidIdentifiers(build, false);
      if !valid {
        return false;
      }
    }
    var (core, pre, hasPre) := Cut(front, '-');
    var parts := Split(core, '.');
    if |parts| != 3 {
      return false;
    }
    for k := 0 to |parts|
      invariant forall j :: 0 <= j < k ==> Number(parts[j])
    {
      var valid := ValidCoreNumber(parts[k]);
      if !valid {
        assert parts[k] in parts;
        return false;
      }
    }
    if !hasPre {
      return true;
    }
    ok := ValidIdentifiers(pre, true);
  }

  // ----- agreement -----

  lemma {:induction false} JoinAvoids(parts: seq<string>, c: char)
    requires parts != [] && c != '.' && forall p :: p in parts ==> c !in p
    ensures c !in Join(parts, '.')
    decreases |parts|
  {
    assert parts[0] in parts;
    if |parts| > 1 {
      assert forall p :: p in parts[1..] ==> p in parts;
      JoinAvoids(parts[1..], c);
    }
  }

  lemma IdentifiersAvoid(identifiers: seq<string>, c: char)
    requires forall i :: i in identifiers ==> BuildIdentifier(i)
    requires !IdentifierChar(c)
    ensures forall i :: i in identifiers ==> c !in i
  {
    forall i | i in identifiers ensures c !in i { assert BuildIdentifier(i); }
  }

  lemma NumbersAvoid(core: seq<string>, c: char)
    requires (forall n :: n in core ==> Number(n)) && !Digit(c)
    ensures forall n :: n in core ==> c !in n
  {
    forall n | n in core ensures c !in n { assert Number(n); }
  }

  /** A printed version splits into its own parts. */
  lemma PrintedSplits(v: Version)
    requires v.WellFormed()
    ensures var (front, build, hasBuild) := Cut(v.Print(), '+');
            var (core, pre, hasPre) := Cut(front, '-');
            && (hasBuild <==> v.build != []) && (hasBuild ==> Split(build, '.') == v.build)
            && Split(core, '.') == v.core
            && (hasPre <==> v.preRelease != []) && (hasPre ==> Split(pre, '.') == v.preRelease)
  {
    hide Cut, Split, Join, All, IndexOf, IdentifierChar, Digit;
    Marks();
    NumbersAvoid(v.core, '+');
    NumbersAvoid(v.core, '-');
    NumbersAvoid(v.core, '.');
    IdentifiersAvoid(v.preRelease, '+');
    IdentifiersAvoid(v.preRelease, '.');
    IdentifiersAvoid(v.build, '.');
    var core := Join(v.core, '.');
    JoinAvoids(v.core, '+');
    JoinAvoids(v.core, '-');
    SplitOfJoin(v.core, '.');
    if v.preRelease != [] {
      JoinAvoids(v.preRelease, '+');
      SplitOfJoin(v.preRelease, '.');
      CutOfConcat(core, '-', Join(v.preRelease, '.'));
    } else {
      CutOfConcat(core, '-', "");
    }
    assert v.Front() == core + Suffix('-', v.preRelease);
    assert '+' !in v.Front();
    if v.build != [] {
      SplitOfJoin(v.build, '.');
      CutOfConcat(v.Front(), '+', Join(v.build, '.'));
    } else {
      CutOfConcat(v.Front(), '+', "");
    }
    assert core + "" == core && v.Front() + "" == v.Front();
  }

  lemma Marks()
    ensures !Digit('+') && !Digit('-') && !Digit('.') && !IdentifierChar('+') && !IdentifierChar('.')
  {
  }

  /** The splitting check accepts exactly the strings the grammar generates. */
  lemma AcceptedIsSemVer(s: string)
    ensures Accepted(s) <==> SemVer(s)
  {
    hide Cut, Split, Join, All;
    if v: Version :| v.WellFormed() && v.Print() == s {
      PrintedSplits(v);
    }
    if Accepted(s) {
      var (front, build, hasBuild) := Cut(s, '+');
      var (core, pre, hasPre) := Cut(front, '-');
      CutRejoins(s, '+');
      CutRejoins(front, '-');
      JoinOfSplit(core, '.');
      JoinOfSplit(pre, '.');
      JoinOfSplit(build, '.');
      var pres, builds := if hasPre then Split(pre, '.') else [], if hasBuild then Split(build, '.') else [];
      var v := Version(Split(core, '.'), pres, builds);
      assert forall i :: i in v.preRelease ==> PreReleaseIdentifier(i);
      assert forall i :: i in v.build ==> BuildIdentifier(i);
      assert core + "" == core && front + "" == front;
      assert v.Front() == front;
      assert v.Print() == s;
      assert v.WellFormed();
    }
  }

  /** The grammar is unambiguous: a version has one reading. */
  lemma OneReading(v: Version, u: Version)
    requires v.WellFormed() && u.WellFormed() && v.Print() == u.Print()
    ensures v == u
  {
    PrintedSplits(v);
    PrintedSplits(u);
  }

  lemma PrintedIsClean(v: Version)
    requires v.WellFormed()
    ensures v.Print() != "" && '\0' !in v.Print()
  {
    NumbersAvoid(v.core, '\0');
    JoinAvoids(v.core, '\0');
    IdentifiersAvoid(v.preRelease, '\0');
    IdentifiersAvoid(v.build, '\0');
    if v.preRelease != [] { JoinAvoids(v.preRelease, '\0'); }
    if v.build != [] { JoinAvoids(v.build, '\0'); }
    assert v.core[0] in v.core && Number(v.core[0]);
  }
}
