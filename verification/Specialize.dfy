/**
 Host specialization of a method: one distribution's overrides over the base configuration, and why a
 validation that knows no host still covers all of them.
 */
module Specialize {
  import opened Basics
  import opened Layers

  /** The configuration keys the model names; the source's are their snake-case spellings. */
  datatype Key =
    | AssetKey | Checksum | ChecksumURL | ChecksumFileFormat | SignatureURL | SigningKey
    | Binary | ExtractTo | StripComponents | Entrypoints | OtherKey(name: string)

  type Config = map<Key, Any>

  /** Host facts, as far as conditions read them. */
  type Facts = map<string, string>

  /** A `when` table; an absent one matches every host. */
  datatype Condition = Anywhere | Where(holds: Facts -> bool) {
    predicate Match(facts: Facts) { Anywhere? || holds(facts) }
  }

  datatype Asset = Template(template: string) | Pattern(regex: string)

  /** Overrides of one packaging; what is absent inherits the base. */
  datatype Distribution = Distribution(
    when: Condition, asset: Option<Asset>, checksum: Option<string>, checksumURL: Option<string>,
    checksumFileFormat: Option<string>, signatureURL: Option<string>, binary: Option<string>,
    extractTo: Option<string>, stripComponents: Option<int>, entrypoints: Option<map<string, string>>)

  datatype Candidate = Candidate(
    kind: string, label_: string, when: Condition, config: Config, distributions: seq<Distribution>,
    selectedWhen: Condition)

  /** What a method kind requires: a configured key and the keys it depends on, in key order. */
  datatype Requirement = Requirement(key: Key, dependencies: seq<Key>)

  type Contracts = map<string, seq<Requirement>>

  datatype Rule = NotEmpty | NeedsAutoChecksum | NeedsKey(dependency: Key) | SingleFilename

  datatype Fault = Fault(path: string, key: Key, rule: Rule)

  datatype Specialization =
    | Chosen(candidate: Candidate)
    | Ineligible
    | Ambiguous(matched: seq<nat>)
    | Invalid(faults: seq<Fault>)

  // ----- overlaying one distribution -----

  function AssetValue(asset: Asset): Any {
    match asset
    case Pattern(regex) => if regex != "" then Table(map["regex" := Text(regex)]) else Text("")
    case Template(template) => Text(template)
  }

  function TextOf(value: Option<string>): Option<Any> {
    if value.None? then None else Some(Text(value.value))
  }

  /** What a distribution says about one key. */
  function Override(d: Distribution, key: Key): Option<Any> {
    match key
    case AssetKey => if d.asset.None? then None else Some(AssetValue(d.asset.value))
    case Checksum => TextOf(d.checksum)
    case ChecksumURL => TextOf(d.checksumURL)
    case ChecksumFileFormat => TextOf(d.checksumFileFormat)
    case SignatureURL => TextOf(d.signatureURL)
    case Binary => TextOf(d.binary)
    case ExtractTo => TextOf(d.extractTo)
    case StripComponents => if d.stripComponents.None? then None else Some(Number(d.stripComponents.value))
    case Entrypoints =>
      if d.entrypoints.None? then None
      else Some(Table(map name | name in d.entrypoints.value :: Text(d.entrypoints.value[name])))
    case SigningKey | OtherKey(_) => None
  }

  /** The keys a distribution may override. */
  const OVERRIDABLE: seq<Key> :=
    [AssetKey, Checksum, ChecksumURL, ChecksumFileFormat, SignatureURL, Binary, ExtractTo, StripComponents, Entrypoints]

  /** A configuration under what a distribution says about `keys`; the rest is inherited. */
  function Overlaid(config: Config, d: Distribution, keys: set<Key>): Config {
    map k | k in config.Keys + (set k | k in keys && Override(d, k).Some?) ::
      if k in keys && Override(d, k).Some? then Override(d, k).value else config[k]
  }

  function Put(config: Config, d: Distribution, key: Key): Config {
    if Override(d, key).Some? then config[key := Override(d, key).value] else config
  }

  lemma OverlaidMore(config: Config, d: Distribution, keys: set<Key>, key: Key)
    ensures Overlaid(config, d, keys + {key}) == Put(Overlaid(config, d, keys), d, key)
    ensures Overlaid(config, d, {}) == config
  {
    hide Override;
  }

  /** The overrides are written into a copy; the copy has nothing left to select. */
  method ApplyDistribution(m: Candidate, d: Distribution) returns (out: Candidate)
    ensures out == Applied(m, d)
  {
    hide Override, Overlaid;
    var config := m.config;
    OverlaidMore(config, d, {}, AssetKey);
    assert Elements(OVERRIDABLE[..0]) == {};
    for i := 0 to |OVERRIDABLE|
      invariant config == Overlaid(m.config, d, Elements(OVERRIDABLE[..i]))
    {
      var key := OVERRIDABLE[i];
      assert OVERRIDABLE[..i + 1] == OVERRIDABLE[..i] + [key];
      assert Elements(OVERRIDABLE[..i + 1]) == Elements(OVERRIDABLE[..i]) + {key};
      OverlaidMore(m.config, d, Elements(OVERRIDABLE[..i]), key);
      if Override(d, key).Some? {
        config := config[key := Override(d, key).value];
      }
    }
    assert OVERRIDABLE[..|OVERRIDABLE|] == OVERRIDABLE;
    out := m.(config := config, distributions := [], selectedWhen := d.when);
  }

  function Applied(m: Candidate, d: Distribution): Candidate {
    m.(config := Overlaid(m.config, d, Elements(OVERRIDABLE)), distributions := [], selectedWhen := d.when)
  }

  /** The configuration has a text exactly as the distribution gives it, or what the base has. */
  predicate Says(out: Config, base: Config, key: Key, value: Option<string>) {
    if value.Some? then key in out && out[key] == Text(value.value) else Inherits(out, base, key)
  }

  predicate SaysNumber(out: Config, base: Config, value: Option<int>) {
    match value
    case None => Inherits(out, base, StripComponents)
    case Some(n) => StripComponents in out && out[StripComponents] == Number(n)
  }

  predicate SaysAsset(out: Config, base: Config, value: Option<Asset>) {
    match value
    case None => Inherits(out, base, AssetKey)
    case Some(Template(text)) => AssetKey in out && out[AssetKey] == Text(text)
    case Some(Pattern(regex)) =>
      AssetKey in out && (regex != "" ==> out[AssetKey] == Table(map["regex" := Text(regex)]))
  }

  /** The targets replace those of the base as a whole. */
  predicate SaysTargets(out: Config, base: Config, value: Option<map<string, string>>) {
    match value
    case None => Inherits(out, base, Entrypoints)
    case Some(targets) =>
      && Entrypoints in out && out[Entrypoints].Table? && out[Entrypoints].entries.Keys == targets.Keys
      && forall name <- targets :: out[Entrypoints].entries[name] == Text(targets[name])
  }

  predicate Inherits(out: Config, base: Config, key: Key) {
    (key in out <==> key in base) && (key in out ==> out[key] == base[key])
  }

  /** Key by key, a specialized configuration has the distribution's own field where it gives one, and the
      base's otherwise; nothing else is touched. */
  lemma SpecializedKeyByKey(m: Candidate, d: Distribution)
    ensures var out, base := Applied(m, d).config, m.config;
            && Says(out, base, Checksum, d.checksum) && Says(out, base, ChecksumURL, d.checksumURL)
            && Says(out, base, ChecksumFileFormat, d.checksumFileFormat)
            && Says(out, base, SignatureURL, d.signatureURL)
            && Says(out, base, Binary, d.binary) && Says(out, base, ExtractTo, d.extractTo)
            && SaysNumber(out, base, d.stripComponents) && SaysAsset(out, base, d.asset)
            && SaysTargets(out, base, d.entrypoints)
            && Inherits(out, base, SigningKey) && forall name :: Inherits(out, base, OtherKey(name))
  {
    hide Overlaid, Says, SaysAsset, SaysTargets, SaysNumber, TextOf;
    OneText(m, d, Checksum, d.checksum);
    OneText(m, d, ChecksumURL, d.checksumURL);
    OneText(m, d, ChecksumFileFormat, d.checksumFileFormat);
    OneText(m, d, SignatureURL, d.signatureURL);
    OneText(m, d, Binary, d.binary);
    OneText(m, d, ExtractTo, d.extractTo);
    OneNumber(m, d);
    OneAsset(m, d);
    TheTargets(m, d);
    OneKey(m.config, d, Elements(OVERRIDABLE), SigningKey);
    forall name ensures Inherits(Applied(m, d).config, m.config, OtherKey(name)) {
      OneKey(m.config, d, Elements(OVERRIDABLE), OtherKey(name));
    }
  }

  lemma OneText(m: Candidate, d: Distribution, key: Key, value: Option<string>)
    requires Override(d, key) == TextOf(value)
    ensures Says(Applied(m, d).config, m.config, key, value)
  {
    EveryOverride();
    OneKey(m.config, d, Elements(OVERRIDABLE), key);
  }

  lemma OneKey(config: Config, d: Distribution, keys: set<Key>, key: Key)
    ensures var out, value := Overlaid(config, d, keys), if key in keys then Override(d, key) else None;
            if value.Some? then key in out && out[key] == value.value else Inherits(out, config, key)
  {
    hide Override;
  }

  lemma OneNumber(m: Candidate, d: Distribution)
    ensures SaysNumber(Applied(m, d).config, m.config, d.stripComponents)
  {
    hide Overlaid;
    EveryOverride();
    OneKey(m.config, d, Elements(OVERRIDABLE), StripComponents);
  }

  lemma OneAsset(m: Candidate, d: Distribution)
    ensures SaysAsset(Applied(m, d).config, m.config, d.asset)
  {
    hide Overlaid;
    EveryOverride();
    OneKey(m.config, d, Elements(OVERRIDABLE), AssetKey);
  }

  lemma TheTargets(m: Candidate, d: Distribution)
    ensures SaysTargets(Applied(m, d).config, m.config, d.entrypoints)
  {
    hide Overlaid;
    EveryOverride();
    OneKey(m.config, d, Elements(OVERRIDABLE), Entrypoints);
  }

  lemma EveryOverride()
    ensures forall d, key :: Override(d, key).Some? ==> key in Elements(OVERRIDABLE)
    ensures {AssetKey, Checksum, ChecksumURL, ChecksumFileFormat, SignatureURL, Binary, ExtractTo, StripComponents,
             Entrypoints} <= Elements(OVERRIDABLE)
  {
    assert OVERRIDABLE[0] == AssetKey && OVERRIDABLE[1] == Checksum && OVERRIDABLE[2] == ChecksumURL;
    assert OVERRIDABLE[3] == ChecksumFileFormat && OVERRIDABLE[4] == SignatureURL && OVERRIDABLE[5] == Binary;
    assert OVERRIDABLE[6] == ExtractTo && OVERRIDABLE[7] == StripComponents && OVERRIDABLE[8] == Entrypoints;
  }

  const INTEGRITY_KEYS: set<Key> := {Checksum, ChecksumURL, ChecksumFileFormat, SignatureURL, SigningKey}

  function Restrict(config: Config, keys: set<Key>): Config {
    map k | k in config && k in keys :: config[k]
  }

  function IntegrityView(config: Config): Config {
    Restrict(config, INTEGRITY_KEYS)
  }

  /** The host-independent overlay: a base view under one distribution's integrity overrides. The signing
      key is never distributable. */
  function EffectiveView(base: Config, d: Distribution): Config {
    Overlaid(base, d, {Checksum, ChecksumURL, ChecksumFileFormat, SignatureURL})
  }

  lemma RestrictOverlaid(config: Config, d: Distribution, keys: set<Key>, within: set<Key>)
    ensures Restrict(Overlaid(config, d, keys), within) == Overlaid(Restrict(config, within), d, keys * within)
  {
    hide Override;
  }

  /** Overlaying views is viewing the overlay. */
  lemma OverlayCommutes(m: Candidate, d: Distribution)
    ensures IntegrityView(Applied(m, d).config) == EffectiveView(IntegrityView(m.config), d)
  {
    hide Overlaid, Restrict;
    RestrictOverlaid(m.config, d, Elements(OVERRIDABLE), INTEGRITY_KEYS);
    assert Elements(OVERRIDABLE) * INTEGRITY_KEYS == {Checksum, ChecksumURL, ChecksumFileFormat, SignatureURL} by {
      assert OVERRIDABLE[1] == Checksum && OVERRIDABLE[2] == ChecksumURL;
      assert OVERRIDABLE[3] == ChecksumFileFormat && OVERRIDABLE[4] == SignatureURL;
    }
  }

  // ----- integrity rules -----

  predicate AutoChecksum(v: Config) {
    Checksum in v && v[Checksum].Text? && EndsWith(v[Checksum].text, ":auto")
  }

  predicate EndsWith(s: string, suffix: string) {
    |suffix| <= |s| && s[|s| - |suffix|..] == suffix
  }

  const SIDECARS: seq<Key> := [ChecksumURL, ChecksumFileFormat, SignatureURL, SigningKey]

  function SidecarFaults(v: Config, path: string, key: Key): seq<Fault> {
    if key !in v then []
    else
      (if v[key] == Text("") then [Fault(path, key, NotEmpty)] else [])
      + (if AutoChecksum(v) then [] else [Fault(path, key, NeedsAutoChecksum)])
  }

  function AllSidecarFaults(v: Config, path: string, keys: seq<Key>): seq<Fault> {
    if keys == [] then [] else SidecarFaults(v, path, keys[0]) + AllSidecarFaults(v, path, keys[1..])
  }

  function IntegrityFaults(v: Config, path: string): seq<Fault> {
    (if Checksum in v && v[Checksum] == Text("") then [Fault(path, Checksum, NotEmpty)] else [])
    + AllSidecarFaults(v, path, SIDECARS)
    + (if SigningKey in v && SignatureURL !in v then [Fault(path, SigningKey, NeedsKey(SignatureURL))] else [])
  }

  method ValidateSidecars(v: Config, path: string, keys: seq<Key>, errs: seq<Fault>) returns (out: seq<Fault>)
    ensures out == errs + AllSidecarFaults(v, path, keys)
  {
    hide AutoChecksum;
    out := errs;
    for i := 0 to |keys|
      invariant out + AllSidecarFaults(v, path, keys[i..]) == errs + AllSidecarFaults(v, path, keys)
    {
      var key := keys[i];
      var found: seq<Fault> := [];
      if key in v {
        if v[key] == Text("") {
          found := found + [Fault(path, key, NotEmpty)];
        }
        if !AutoChecksum(v) {
          found := found + [Fault(path, key, NeedsAutoChecksum)];
        }
      }
      assert found == SidecarFaults(v, path, key);
      assert keys[i..][1..] == keys[i + 1..];
      Regroup(out, found, AllSidecarFaults(v, path, keys[i + 1..]));
      out := out + found;
    }
  }

  method ValidateArtifactIntegrityOptions(v: Config, path: string, errs: seq<Fault>) returns (out: seq<Fault>)
    ensures out == errs + IntegrityFaults(v, path)
  {
    hide AllSidecarFaults;
    var first: seq<Fault> := [];
    if Checksum in v && v[Checksum] == Text("") {
      first := [Fault(path, Checksum, NotEmpty)];
    }
    out := ValidateSidecars(v, path, SIDECARS, errs + first);
    var last: seq<Fault> := [];
    if SigningKey in v && SignatureURL !in v {
      last := [Fault(path, SigningKey, NeedsKey(SignatureURL))];
    }
    out := out + last;
    Regroup(errs, first, AllSidecarFaults(v, path, SIDECARS));
    Regroup(errs, first + AllSidecarFaults(v, path, SIDECARS), last);
  }

  /** What a coherent combination is: a sidecar file rides on an automatic checksum, nothing is empty, and
      a key signs a signature. */
  predicate Coherent(v: Config) {
    && (forall k :: k in INTEGRITY_KEYS && k in v ==> v[k] != Text(""))
    && ((exists k :: k in SIDECARS && k in v) ==> AutoChecksum(v))
    && (SigningKey in v ==> SignatureURL in v)
  }

  lemma {:induction false} NoSidecarFaults(v: Config, path: string, keys: seq<Key>)
    ensures AllSidecarFaults(v, path, keys) == []
            <==> forall k :: k in keys && k in v ==> v[k] != Text("") && AutoChecksum(v)
    decreases |keys|
  {
    if keys != [] {
      NoSidecarFaults(v, path, keys[1..]);
      assert keys == [keys[0]] + keys[1..];
    }
  }

  /** The rules find no fault exactly in coherent combinations, wherever they are reported. */
  lemma FaultlessIsCoherent(v: Config, path: string)
    ensures IntegrityFaults(v, path) == [] <==> Coherent(v)
  {
    NoSidecarFaults(v, path, SIDECARS);
    assert forall k :: k in INTEGRITY_KEYS <==> k == Checksum || k in SIDECARS;
  }

  function RequireFaults(v: Config, path: string, key: Key, dependencies: seq<Key>): seq<Fault> {
    if dependencies == [] then []
    else
      (if dependencies[0] in v then [] else [Fault(path, key, NeedsKey(dependencies[0]))])
      + RequireFaults(v, path, key, dependencies[1..])
  }

  function ContractFaults(v: Config, path: string, contract: seq<Requirement>): seq<Fault> {
    if contract == [] then []
    else
      (if contract[0].key in v then RequireFaults(v, path, contract[0].key, contract[0].dependencies) else [])
      + ContractFaults(v, path, contract[1..])
  }

  method CheckDependencies(v: Config, path: string, key: Key, dependencies: seq<Key>, errs: seq<Fault>)
      returns (out: seq<Fault>)
    ensures out == errs + RequireFaults(v, path, key, dependencies)
  {
    out := errs;
    for j := 0 to |dependencies|
      invariant out + RequireFaults(v, path, key, dependencies[j..]) == errs + RequireFaults(v, path, key, dependencies)
    {
      var missing: seq<Fault> := if dependencies[j] in v then [] else [Fault(path, key, NeedsKey(dependencies[j]))];
      assert dependencies[j..][1..] == dependencies[j + 1..];
      Regroup(out, missing, RequireFaults(v, path, key, dependencies[j + 1..]));
      out := out + missing;
    }
  }

  method CheckEffectiveRequires(v: Config, contract: seq<Requirement>, path: string, errs: seq<Fault>)
    returns (out: seq<Fault>)
    ensures out == errs + ContractFaults(v, path, contract)
  {
    out := errs;
    for i := 0 to |contract|
      invariant out + ContractFaults(v, path, contract[i..]) == errs + ContractFaults(v, path, contract)
    {
      hide RequireFaults;
      var r := contract[i];
      ghost var found := if r.key in v then RequireFaults(v, path, r.key, r.dependencies) else [];
      assert contract[i..][1..] == contract[i + 1..];
      Regroup(out, found, ContractFaults(v, path, contract[i + 1..]));
      if r.key in v {
        out := CheckDependencies(v, path, r.key, r.dependencies, out);
      }
    }
  }

  predicate ContractMet(v: Config, contract: seq<Requirement>) {
    forall r, d :: r in contract && r.key in v && d in r.dependencies ==> d in v
  }

  lemma {:induction false} NoRequireFaults(v: Config, path: string, key: Key, dependencies: seq<Key>)
    ensures RequireFaults(v, path, key, dependencies) == [] <==> forall d :: d in dependencies ==> d in v
    decreases |dependencies|
  {
    if dependencies != [] {
      NoRequireFaults(v, path, key, dependencies[1..]);
      assert dependencies == [dependencies[0]] + dependencies[1..];
    }
  }

  lemma {:induction false} FaultlessMeetsContract(v: Config, path: string, contract: seq<Requirement>)
    ensures ContractFaults(v, path, contract) == [] <==> ContractMet(v, contract)
    decreases |contract|
  {
    if contract != [] {
      FaultlessMeetsContract(v, path, contract[1..]);
      NoRequireFaults(v, path, contract[0].key, contract[0].dependencies);
      assert contract == [contract[0]] + contract[1..];
    }
  }

  function ContractOf(contracts: Contracts, kind: string): seq<Requirement> {
    if kind in contracts then contracts[kind] else []
  }

  function ViewFaults(contracts: Contracts, kind: string, v: Config, path: string): seq<Fault> {
    IntegrityFaults(v, path) + ContractFaults(v, path, ContractOf(contracts, kind))
  }

  // ----- specialization -----

  /** The distributions that match, by ascending position. */
  function Matched(ds: seq<Distribution>, facts: Facts, from: nat): (ms: seq<nat>)
    requires from <= |ds|
    ensures forall k :: 0 <= k < |ms| ==> from <= ms[k] < |ds| && ds[ms[k]].when.Match(facts)
    ensures forall k, l :: 0 <= k < l < |ms| ==> ms[k] < ms[l]
    decreases |ds| - from
  {
    if from == |ds| then []
    else (if ds[from].when.Match(facts) then [from] else []) + Matched(ds, facts, from + 1)
  }

  function SpecializeFor(contracts: Contracts, m: Candidate, facts: Facts): Specialization {
    if m.distributions == [] then Chosen(m)
    else if !m.when.Match(facts) then Ineligible
    else
      var matched := Matched(m.distributions, facts, 0);
      if matched == [] then Ineligible
      else if |matched| > 1 then Ambiguous(matched)
      else
        var out := Applied(m, m.distributions[matched[0]]);
        var faults := ViewFaults(contracts, out.kind, IntegrityView(out.config), "candidate");
        if faults != [] then Invalid(faults) else Chosen(out)
  }

  method MatchingDistributions(ds: seq<Distribution>, facts: Facts) returns (matched: seq<nat>)
    ensures matched == Matched(ds, facts, 0)
  {
    hide Matched, Condition.Match;
    matched := [];
    for i := 0 to |ds|
      invariant matched + Matched(ds, facts, i) == Matched(ds, facts, 0)
    {
      MatchedStep(ds, facts, i);
      if ds[i].when.Match(facts) {
        Regroup(matched, [i], Matched(ds, facts, i + 1));
        matched := matched + [i];
      }
    }
    MatchedStep(ds, facts, |ds|);
  }

  lemma MatchedStep(ds: seq<Distribution>, facts: Facts, i: nat)
    requires i <= |ds|
    ensures Matched(ds, facts, i)
            == if i == |ds| then []
               else if ds[i].when.Match(facts) then [i] + Matched(ds, facts, i + 1) else Matched(ds, facts, i + 1)
  {
  }

  method SpecializeDistribution(contracts: Contracts, m: Candidate, facts: Facts) returns (result: Specialization)
    ensures result == SpecializeFor(contracts, m, facts)
  {
    hide Condition.Match, Applied, ViewFaults, IntegrityView, Matched;
    if |m.distributions| == 0 {
      return Chosen(m);
    }
    if !m.when.Match(facts) {
      return Ineligible;
    }
    var matched := MatchingDistributions(m.distributions, facts);
    if |matched| == 0 {
      return Ineligible;
    }
    if |matched| > 1 {
      return Ambiguous(matched);
    }
    var out := ApplyDistribution(m, m.distributions[matched[0]]);
    var errs := ValidateView(contracts, out.kind, IntegrityView(out.config), "candidate", []);
    return if |errs| > 0 then Invalid(errs) else Chosen(out);
  }

  lemma {:induction false} MatchedAll(ds: seq<Distribution>, facts: Facts, from: nat, i: nat)
    requires from <= i < |ds| && ds[i].when.Match(facts)
    ensures i in Matched(ds, facts, from)
    decreases |ds| - from
  {
    if from < i { MatchedAll(ds, facts, from + 1, i); }
  }

  predicate MatchesOnly(m: Candidate, facts: Facts, i: nat)
    requires i < |m.distributions|
  {
    && m.when.Match(facts)
    && forall j :: 0 <= j < |m.distributions| ==> (m.distributions[j].when.Match(facts) <==> j == i)
  }

  /** The overrides of a distribution, over the base, obey the rules. */
  predicate DistributionCoherent(contracts: Contracts, m: Candidate, d: Distribution) {
    var v := EffectiveView(IntegrityView(m.config), d);
    Coherent(v) && ContractMet(v, ContractOf(contracts, m.kind))
  }

  lemma OnlyMatchIsSelected(m: Candidate, facts: Facts, i: nat)
    requires i < |m.distributions|
    ensures m.when.Match(facts) && Matched(m.distributions, facts, 0) == [i] <==> MatchesOnly(m, facts, i)
  {
    hide Matched, Condition.Match;
    var ds := m.distributions;
    var ms := Matched(ds, facts, 0);
    assert |ms| > 1 ==> ms[0] < ms[1];
    if ms == [i] {
      forall j | 0 <= j < |ds| && ds[j].when.Match(facts) ensures j == i { MatchedAll(ds, facts, 0, j); }
      assert ds[ms[0]].when.Match(facts);
    }
    if MatchesOnly(m, facts, i) {
      MatchedAll(ds, facts, 0, i);
      assert forall k :: 0 <= k < |ms| ==> ms[k] == i;
      assert |ms| <= 1;
      assert ms == [i];
    }
  }

  lemma SelectedIsChecked(contracts: Contracts, m: Candidate, facts: Facts, i: nat)
    requires i < |m.distributions| && m.when.Match(facts) && Matched(m.distributions, facts, 0) == [i]
    ensures SpecializeFor(contracts, m, facts).Invalid? <==> !DistributionCoherent(contracts, m, m.distributions[i])
    ensures !SpecializeFor(contracts, m, facts).Invalid? ==>
      SpecializeFor(contracts, m, facts) == Chosen(Applied(m, m.distributions[i]))
  {
    hide Matched, Condition.Match, ViewFaults, IntegrityView, EffectiveView, Overlaid, DistributionCoherent;
    OverlayCommutes(m, m.distributions[i]);
    EffectiveFaults(contracts, m, m.distributions[i], "candidate");
  }

  /** Specialization is invalid on a host exactly when the host matches one distribution alone and that
      distribution breaks the rules over the base. */
  lemma InvalidExactlyWhere(contracts: Contracts, m: Candidate, facts: Facts)
    ensures SpecializeFor(contracts, m, facts).Invalid?
            <==> exists i :: 0 <= i < |m.distributions| && MatchesOnly(m, facts, i)
                             && !DistributionCoherent(contracts, m, m.distributions[i])
  {
    hide Matched, Condition.Match, ViewFaults, DistributionCoherent, MatchesOnly, Applied, IntegrityView;
    var ms := Matched(m.distributions, facts, 0);
    if SpecializeFor(contracts, m, facts).Invalid? {
      assert ms == [ms[0]];
      OnlyMatchIsSelected(m, facts, ms[0]);
      SelectedIsChecked(contracts, m, facts, ms[0]);
    }
    forall i | 0 <= i < |m.distributions| && MatchesOnly(m, facts, i)
      ensures SpecializeFor(contracts, m, facts).Invalid? <==> !DistributionCoherent(contracts, m, m.distributions[i])
    {
      OnlyMatchIsSelected(m, facts, i);
      SelectedIsChecked(contracts, m, facts, i);
    }
  }

  lemma EffectiveFaults(contracts: Contracts, m: Candidate, d: Distribution, path: string)
    ensures ViewFaults(contracts, m.kind, EffectiveView(IntegrityView(m.config), d), path) == []
            <==> DistributionCoherent(contracts, m, d)
  {
    var v := EffectiveView(IntegrityView(m.config), d);
    FaultlessIsCoherent(v, path);
    FaultlessMeetsContract(v, path, ContractOf(contracts, m.kind));
  }

  predicate TwoMatch(ds: seq<Distribution>, facts: Facts) {
    exists i, j :: 0 <= i < j < |ds| && ds[i].when.Match(facts) && ds[j].when.Match(facts)
  }

  /** Specialization is ambiguous exactly where two distributions match. */
  lemma AmbiguousExactlyWhere(contracts: Contracts, m: Candidate, facts: Facts)
    ensures SpecializeFor(contracts, m, facts).Ambiguous? <==> m.when.Match(facts) && TwoMatch(m.distributions, facts)
  {
    hide Matched, Condition.Match, ViewFaults, Applied;
    var ds := m.distributions;
    var ms := Matched(ds, facts, 0);
    if |ms| > 1 { assert ds[ms[0]].when.Match(facts) && ds[ms[1]].when.Match(facts) && ms[0] < ms[1]; }
    if i, j :| 0 <= i < j < |ds| && ds[i].when.Match(facts) && ds[j].when.Match(facts) {
      MatchedAll(ds, facts, 0, i);
      MatchedAll(ds, facts, 0, j);
    }
  }

  /** A specialized candidate specializes to itself on every host. */
  lemma SpecializedStaysPut(contracts: Contracts, m: Candidate, facts: Facts, later: Facts)
    requires SpecializeFor(contracts, m, facts).Chosen?
    ensures var out := SpecializeFor(contracts, m, facts).candidate;
            SpecializeFor(contracts, out, later) == Chosen(out)
  {
  }

  // ----- validation without a host -----

  predicate BinaryRuleApplies(contracts: Contracts, kind: string) {
    kind in contracts && (kind == "http" || kind == "github")
  }

  predicate SingleFilenameValue(name: string) {
    name != "" ==>
      && name != "." && name != ".." && '/' !in name && '\\' !in name && '\0' !in name
      && !(|name| >= 2 && ('a' <= name[0] <= 'z' || 'A' <= name[0] <= 'Z') && name[1] == ':')
  }

  datatype Tool = Tool(name: string, methods: seq<Candidate>)

  /** One merged method: the base combination, then each distribution's effective one. */
  method ValidateMergedMethodIntegrity(contracts: Contracts, toolName: string, m: Candidate, errs: seq<Fault>)
    returns (out: seq<Fault>)
    ensures out == [] <==> errs == [] && MethodAccepted(contracts, m)
    ensures |errs| <= |out|
  {
    hide IntegrityFaults, ContractFaults, Coherent, ContractMet, EffectiveView, IntegrityView, SingleFilenameValue;
    var path := toolName + "." + (if m.label_ != "" then m.label_ else m.kind);
    var base := IntegrityView(m.config);
    out := ValidateView(contracts, m.kind, base, path, errs);
    for i := 0 to |m.distributions|
      invariant out == [] <==> errs == [] && Coherent(base) && ContractMet(base, ContractOf(contracts, m.kind))
                               && forall j :: 0 <= j < i ==> DistributionAccepted(contracts, m, m.distributions[j])
      invariant |errs| <= |out|
    {
      var d := m.distributions[i];
      var at := path + ".distributions";
      if d.binary.Some? && BinaryRuleApplies(contracts, m.kind) && !SingleFilenameValue(d.binary.value) {
        out := out + [Fault(at, Binary, SingleFilename)];
      }
      var effective := OverlayIntegrity(base, d);
      out := ValidateView(contracts, m.kind, effective, at, out);
    }
  }

  /** The base view under the overrides that concern integrity, one by one. */
  method OverlayIntegrity(base: Config, d: Distribution) returns (effective: Config)
    ensures effective == EffectiveView(base, d)
  {
    hide Overlaid;
    effective := base;
    OverlaidMore(base, d, {}, Checksum);
    if d.checksum.Some? { effective := effective[Checksum := Text(d.checksum.value)]; }
    OverlaidMore(base, d, {Checksum}, ChecksumURL);
    if d.checksumURL.Some? { effective := effective[ChecksumURL := Text(d.checksumURL.value)]; }
    OverlaidMore(base, d, {Checksum, ChecksumURL}, ChecksumFileFormat);
    if d.checksumFileFormat.Some? { effective := effective[ChecksumFileFormat := Text(d.checksumFileFormat.value)]; }
    OverlaidMore(base, d, {Checksum, ChecksumURL, ChecksumFileFormat}, SignatureURL);
    if d.signatureURL.Some? { effective := effective[SignatureURL := Text(d.signatureURL.value)]; }
    assert {} + {Checksum} == {Checksum} && {Checksum} + {ChecksumURL} == {Checksum, ChecksumURL};
    assert {Checksum, ChecksumURL} + {ChecksumFileFormat} == {Checksum, ChecksumURL, ChecksumFileFormat};
    assert {Checksum, ChecksumURL, ChecksumFileFormat} + {SignatureURL}
        == {Checksum, ChecksumURL, ChecksumFileFormat, SignatureURL};
  }

  /** Both rule sets over one view. */
  method ValidateView(contracts: Contracts, kind: string, v: Config, path: string, errs: seq<Fault>)
      returns (out: seq<Fault>)
    ensures out == errs + ViewFaults(contracts, kind, v, path)
    ensures ViewFaults(contracts, kind, v, path) == [] <==> Coherent(v) && ContractMet(v, ContractOf(contracts, kind))
  {
    hide IntegrityFaults, ContractFaults, Coherent, ContractMet;
    FaultlessIsCoherent(v, path);
    FaultlessMeetsContract(v, path, ContractOf(contracts, kind));
    out := ValidateArtifactIntegrityOptions(v, path, errs);
    var integrity := out;
    NoContract(v, path);
    if kind in contracts {
      out := CheckEffectiveRequires(v, contracts[kind], path, out);
    }
    assert out == integrity + ContractFaults(v, path, ContractOf(contracts, kind));
  }

  lemma NoContract(v: Config, path: string)
    ensures ContractFaults(v, path, []) == []
  {
  }

  predicate DistributionAccepted(contracts: Contracts, m: Candidate, d: Distribution) {
    && DistributionCoherent(contracts, m, d)
    && (d.binary.Some? && BinaryRuleApplies(contracts, m.kind) ==> SingleFilenameValue(d.binary.value))
  }

  predicate MethodAccepted(contracts: Contracts, m: Candidate) {
    && Coherent(IntegrityView(m.config))
    && ContractMet(IntegrityView(m.config), ContractOf(contracts, m.kind))
    && forall j :: 0 <= j < |m.distributions| ==> DistributionAccepted(contracts, m, m.distributions[j])
  }

  /** Accepts a merged schema exactly when every method and every distribution obeys the rules. */
  method ValidateEffectiveIntegrity(contracts: Contracts, tools: seq<Tool>) returns (accepted: bool)
    ensures accepted <==> forall t, m :: t in tools && m in t.methods ==> MethodAccepted(contracts, m)
  {
    var errs: seq<Fault> := [];
    for i := 0 to |tools|
      invariant errs == [] <==> forall t, m :: t in tools[..i] && m in t.methods ==> MethodAccepted(contracts, m)
    {
      ghost var before := errs;
      var t := tools[i];
      for j := 0 to |t.methods|
        invariant errs == [] <==> before == [] && forall m :: m in t.methods[..j] ==> MethodAccepted(contracts, m)
      {
        errs := ValidateMergedMethodIntegrity(contracts, t.name, t.methods[j], errs);
        assert t.methods[..j + 1] == t.methods[..j] + [t.methods[j]];
      }
      assert t.methods[..|t.methods|] == t.methods;
      assert tools[..i + 1] == tools[..i] + [t];
    }
    assert tools[..|tools|] == tools;
    accepted := errs == [];
  }

  /** An accepted method fails on no host except where two of its distributions match. */
  lemma AcceptedFailsOnlyByAmbiguity(contracts: Contracts, m: Candidate, facts: Facts)
    requires MethodAccepted(contracts, m)
    ensures var result := SpecializeFor(contracts, m, facts);
            && !result.Invalid?
            && (result.Chosen? || result.Ineligible? || result.Ambiguous?)
            && (result.Chosen? && m.distributions != [] ==>
                  && Coherent(IntegrityView(result.candidate.config))
                  && ContractMet(IntegrityView(result.candidate.config), ContractOf(contracts, m.kind)))
  {
    hide Matched, Condition.Match, ViewFaults, DistributionCoherent, MatchesOnly, Coherent, IntegrityView,
         EffectiveView;
    InvalidExactlyWhere(contracts, m, facts);
    assert forall i :: 0 <= i < |m.distributions| ==> DistributionAccepted(contracts, m, m.distributions[i]);
    if SpecializeFor(contracts, m, facts).Chosen? && m.distributions != [] {
      var i := Matched(m.distributions, facts, 0)[0];
      assert Matched(m.distributions, facts, 0) == [i];
      SelectedIsChecked(contracts, m, facts, i);
      AppliedIsCoherent(contracts, m, m.distributions[i]);
    }
  }

  lemma AppliedIsCoherent(contracts: Contracts, m: Candidate, d: Distribution)
    requires DistributionCoherent(contracts, m, d)
    ensures var v := IntegrityView(Applied(m, d).config); Coherent(v) && ContractMet(v, ContractOf(contracts, m.kind))
  {
    OverlayCommutes(m, d);
  }
}
