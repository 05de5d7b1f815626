/** The runtime resolver: compiling persisted versions through a shared cache, and what
    each call may return. */
module Resolver {
  import opened Text
  import opened Lists
  import opened Policy
  import opened Compile
  import opened Compat

  /** One immutable bundle version as persisted. */
  datatype Version = Version(policySetId: string, number: int, checksum: string, bundle: string)

  /** What a resolver is built from. */
  datatype Setup = Setup(
    policySet: string, decode: string -> Option<Bundle>, builtIn: Bundle, fallback: Compiled)

  const DEFAULT_SET := "central_authorization"

  function CacheKey(v: Version): string {
    Norm(v.policySetId) + "|" + (Itoa(v.number) + "|" + Norm(v.checksum))
  }

  /** The guard against an all-blank key never fires: the number is always rendered. */
  lemma CacheKeyNeverBlank(v: Version)
    ensures CacheKey(v) != "||"
  {
    hide Norm;
    assert |CacheKey(v)| > 2;
  }

  /** Keys determine the cleaned set name, the number and the cleaned checksum, because
      set names hold no bar. Checksums may. */
  lemma CacheKeyInjective(v: Version, w: Version)
    requires '|' !in Norm(v.policySetId) && '|' !in Norm(w.policySetId)
    requires CacheKey(v) == CacheKey(w)
    ensures Norm(v.policySetId) == Norm(w.policySetId) && v.number == w.number && Norm(v.checksum) == Norm(w.checksum)
  {
    hide Norm;
    SplitInjective(
      '|', Norm(v.policySetId), Itoa(v.number) + "|" + Norm(v.checksum),
      Norm(w.policySetId), Itoa(w.number) + "|" + Norm(w.checksum));
    SplitInjective('|', Itoa(v.number), Norm(v.checksum), Itoa(w.number), Norm(w.checksum));
    ItoaInjective(v.number, w.number);
  }

  // ----- the uncached pipeline -----

  ghost predicate ServesDefaultSet(setup: Setup) {
    Lower(Trim(setup.policySet)) == Lower(DEFAULT_SET)
  }

  /** Compilation, then the refresh of a legacy policy, then the overlay. */
  ghost function Finished(setup: Setup, c: Compiled): Compiled {
    Overlaid(
      if ServesDefaultSet(setup) && IsLegacy(setup.builtIn, c) then Upgraded(c, setup.fallback) else c,
      setup.fallback, SHIPPED_ROUTES)
  }

  ghost predicate Accepts(setup: Setup, v: Version) {
    AcceptsText(v.bundle, setup.decode)
  }

  /** The policies the uncached pipeline can produce for a version. */
  ghost predicate MayProduce(setup: Setup, v: Version, c: Compiled) {
    Accepts(setup, v)
    && exists raw :: CompilesTo(setup.decode(Trim(v.bundle)).value, raw) && c == Finished(setup, raw)
  }

  ghost predicate GoodSetup(setup: Setup) {
    && WellFormedBundle(setup.builtIn) && NoClashes(setup.builtIn) && NoClashes(LegacyBundle(setup.builtIn))
    && CompilesTo(setup.builtIn, setup.fallback)
  }

  /** A version's bundle whose keys do not clash has one result. */
  lemma ProducesOne(setup: Setup, v: Version, c: Compiled, d: Compiled)
    requires MayProduce(setup, v, c) && MayProduce(setup, v, d)
    requires NoClashes(setup.decode(Trim(v.bundle)).value)
    ensures c == d
  {
    hide Finished, CompilesTo, NoClashes, WellFormedBundle;
    var bundle := setup.decode(Trim(v.bundle)).value;
    var p :| CompilesTo(bundle, p) && c == Finished(setup, p);
    var q :| CompilesTo(bundle, q) && d == Finished(setup, q);
    CompilationDeterministic(bundle, p, q);
  }

  /** Whatever the pipeline produces is well-formed. */
  lemma ProducesWellFormed(setup: Setup, v: Version, c: Compiled)
    requires GoodSetup(setup) && MayProduce(setup, v, c)
    ensures WellFormed(c)
  {
    hide CompilesTo, NoClashes, WellFormedBundle, Overlaid, WellFormed, Upgraded;
    var bundle := setup.decode(Trim(v.bundle)).value;
    var raw :| CompilesTo(bundle, raw) && c == Finished(setup, raw);
    CompiledWellFormed(bundle, raw);
    CompiledWellFormed(setup.builtIn, setup.fallback);
    UpgradedWellFormed(raw, setup.fallback);
    OverlayWellFormed(raw, setup.fallback, SHIPPED_ROUTES);
    OverlayWellFormed(Upgraded(raw, setup.fallback), setup.fallback, SHIPPED_ROUTES);
  }

  lemma UpgradedWellFormed(base: Compiled, fallback: Compiled)
    requires WellFormed(base) && WellFormed(fallback)
    ensures WellFormed(Upgraded(base, fallback))
  {
    hide CanonicalRoles, Abac.CleanPolicy, Rebac.CleanPaths, Normal;
  }

  lemma OverlayOfFallback(fallback: Compiled, definitions: seq<RouteDefinition>)
    ensures Overlaid(fallback, fallback, definitions) == fallback
  {
    assert AddedKeys(fallback, fallback, definitions) == {};
    assert AddedActions(fallback, fallback, definitions) == {};
    OverlayNone(fallback, fallback);
    assert AddedKeys(fallback, fallback, []) == {} && AddedActions(fallback, fallback, []) == {};
  }

  /** Main result: a persisted copy of the former built-in bundle is served as exactly the
      current built-in policy. */
  lemma LegacyVersionIsCurrent(setup: Setup, v: Version, c: Compiled)
    requires GoodSetup(setup) && RefreshesLegacy(setup.builtIn) && ServesDefaultSet(setup)
    requires MayProduce(setup, v, c) && setup.decode(Trim(v.bundle)) == Some(LegacyBundle(setup.builtIn))
    ensures c == setup.fallback
  {
    hide CompilesTo, NoClashes, WellFormedBundle, Overlaid, Upgraded, RefreshesLegacy, LegacyBundle, ServesDefaultSet;
    var raw :| CompilesTo(LegacyBundle(setup.builtIn), raw) && c == Finished(setup, raw);
    UpgradeIsExact(setup.builtIn, raw, setup.fallback);
    OverlayOfFallback(setup.fallback, SHIPPED_ROUTES);
  }

  /** The bundle does not compile to the former built-in policy. */
  ghost predicate Custom(setup: Setup, bundle: Bundle) {
    forall raw :: CompilesTo(bundle, raw) ==> !IsLegacy(setup.builtIn, raw)
  }

  /** Main result: every policy the pipeline can produce for a bundle that is not the legacy
      one still holds what the bundle compiles to: each route, each grant, each condition,
      each relationship path. The former role names are never broadened. */
  lemma CustomVersionKept(setup: Setup, v: Version, c: Compiled) returns (raw: Compiled)
    requires MayProduce(setup, v, c) && Custom(setup, setup.decode(Trim(v.bundle)).value)
    ensures CompilesTo(setup.decode(Trim(v.bundle)).value, raw) && Keeps(raw, c)
  {
    hide CompilesTo, WellFormedBundle, IsLegacy, Overlaid, ServesDefaultSet, AcceptsText, Keeps;
    AcceptedBundle(v.bundle, setup.decode);
    var bundle := setup.decode(Trim(v.bundle)).value;
    raw :| CompilesTo(bundle, raw) && c == Finished(setup, raw);
    assert c == Overlaid(raw, setup.fallback, SHIPPED_ROUTES);
    OverlayKeeps(raw, setup.fallback, SHIPPED_ROUTES);
  }

  lemma AcceptedBundle(text: string, decode: string -> Option<Bundle>)
    requires AcceptsText(text, decode)
    ensures decode(Trim(text)).Some? && WellFormedBundle(decode(Trim(text)).value)
  {
    hide WellFormedBundle;
  }

  // ----- the cache -----

  /** One call of `CompiledVersion`, on values: a hit returns the cached policy, a miss runs
      the pipeline and remembers its result, a failure leaves the cache alone. */
  ghost predicate CacheStep(
      setup: Setup, cache: map<string, Compiled>, v: Version, r: Option<Compiled>, after: map<string, Compiled>)
  {
    var key := CacheKey(v);
    if key in cache then r == Some(cache[key]) && after == cache
    else if !Accepts(setup, v) then r == None && after == cache
    else r.Some? && MayProduce(setup, v, r.value) && after == cache[key := r.value]
  }

  class RuntimeResolver {
    const policySet: string
    const decode: string -> Option<Bundle>
    const builtIn: Bundle
    const fallback: PolicyMaps
    var cacheByKey: map<string, PolicyMaps>

    ghost predicate Valid()
      reads this, fallback
    {
      GoodSetup(Config()) && fallback !in cacheByKey.Values
    }

    ghost function Config(): Setup
      reads fallback
    {
      Setup(policySet, decode, builtIn, fallback.Value())
    }

    ghost function Cache(): map<string, Compiled>
      reads this, cacheByKey.Values
    {
      map key | key in cacheByKey :: cacheByKey[key].Value()
    }

    constructor (policySetId: string, decode: string -> Option<Bundle>, builtIn: Bundle, compiled: Compiled)
      requires WellFormedBundle(builtIn) && NoClashes(builtIn) && NoClashes(LegacyBundle(builtIn))
      requires CompilesTo(builtIn, compiled)
      ensures Valid() && Cache() == map[] && fresh(fallback)
      ensures fallback.Value() == compiled && this.decode == decode && this.builtIn == builtIn
      ensures policySet == if Trim(policySetId) == "" then DEFAULT_SET else Trim(policySetId)
    {
      hide WellFormedBundle, CompilesTo, NoClashes, LegacyBundle, Trim;
      var maps := new PolicyMaps(compiled);
      this.policySet := if Trim(policySetId) == "" then DEFAULT_SET else Trim(policySetId);
      this.decode := decode;
      this.builtIn := builtIn;
      this.fallback := maps;
      cacheByKey := map[];
    }

    /** Runs the pipeline into fresh maps; the refresh and the overlay write in place. */
    method CompileFresh(v: Version) returns (r: Option<PolicyMaps>)
      requires Valid()
      ensures r.Some? <==> Accepts(Config(), v)
      ensures r.Some? ==> fresh(r.value) && MayProduce(Config(), v, r.value.Value())
    {
      hide WellFormedBundle, CompilesTo, NoClashes, Overlaid, Upgraded, IsLegacy, SHIPPED_ROUTES;
      var compiled := CompileText(v.bundle, decode);
      if compiled.Err? {
        return None;
      }
      var policy := new PolicyMaps(compiled.value);
      if Lower(Trim(policySet)) == Lower(DEFAULT_SET) {
        var legacy := IsLegacyPolicy(builtIn, policy);
        if legacy {
          UpgradeLegacyRoleGrants(policy, fallback);
        }
      }
      OverlayCompatibility(policy, fallback, SHIPPED_ROUTES);
      assert policy.Value() == Finished(Config(), compiled.value);
      return Some(policy);
    }

    /** The cache is transparent up to `CacheStep`. Only the key table changes: no call
        writes into the fallback's maps or into a policy handed out before. */
    method CompiledVersion(v: Version) returns (r: Option<PolicyMaps>)
      requires Valid()
      modifies this`cacheByKey
      ensures Valid() && Config() == old(Config())
      ensures CacheStep(Config(), old(Cache()), v, if r.Some? then Some(r.value.Value()) else None, Cache())
      ensures r.Some? ==> CacheKey(v) in cacheByKey && cacheByKey[CacheKey(v)] == r.value
      ensures forall key :: key in old(cacheByKey) ==> key in cacheByKey && cacheByKey[key] == old(cacheByKey[key])
    {
      hide GoodSetup, Accepts, MayProduce;
      var key := CacheKey(v);
      CacheKeyNeverBlank(v);
      if key != "||" && key in cacheByKey {
        return Some(cacheByKey[key]);
      }
      r := CompileFresh(v);
      if r.None? {
        return;
      }
      if key != "||" {
        ghost var before := Cache();
        cacheByKey := cacheByKey[key := r.value];
        assert Cache() == before[key := r.value.Value()];
      }
    }
  }

  // ----- transparency over whole runs -----

  /** How a call's last access to the cache may go when calls overlap: as in a single call,
      or, the call having missed earlier, by storing its own product over whatever is there
      by now, or by leaving the cache alone because its text does not compile. */
  ghost predicate RaceStep(
      setup: Setup, cache: map<string, Compiled>, v: Version, r: Option<Compiled>, after: map<string, Compiled>)
  {
    || CacheStep(setup, cache, v, r, after)
    || (!Accepts(setup, v) && r == None && after == cache)
    || (r.Some? && MayProduce(setup, v, r.value) && after == cache[CacheKey(v) := r.value])
  }

  /** Calls in the order of their last accesses to the cache; `caches[i]` precedes that of
      call `i`. */
  ghost predicate CallRun(
      setup: Setup, calls: seq<Version>, results: seq<Option<Compiled>>, caches: seq<map<string, Compiled>>)
  {
    && |results| == |calls| && |caches| == |calls| + 1 && caches[0] == map[]
    && forall i :: 0 <= i < |calls| ==> RaceStep(setup, caches[i], calls[i], results[i], caches[i + 1])
  }

  /** The two versions have the same products; in particular either both compile or neither. */
  ghost predicate SameProducts(setup: Setup, v: Version, w: Version) {
    forall c :: MayProduce(setup, v, c) <==> MayProduce(setup, w, c)
  }

  ghost predicate KeysTell(setup: Setup, versions: iset<Version>) {
    forall v, w :: v in versions && w in versions && CacheKey(v) == CacheKey(w) ==> SameProducts(setup, v, w)
  }

  /** What the uncached pipeline could have returned. */
  ghost predicate Faithful(setup: Setup, v: Version, r: Option<Compiled>) {
    if r.Some? then MayProduce(setup, v, r.value) else !Accepts(setup, v)
  }

  ghost predicate AllFaithful(setup: Setup, calls: seq<Version>, results: seq<Option<Compiled>>) {
    |results| == |calls| && forall i :: 0 <= i < |calls| ==> Faithful(setup, calls[i], results[i])
  }

  /** No sequence of calls for these versions ever returns anything else. */
  ghost predicate Transparent(setup: Setup, versions: iset<Version>) {
    forall calls, results, caches ::
      CallRun(setup, calls, results, caches) && (forall v :: v in calls ==> v in versions) ==>
        AllFaithful(setup, calls, results)
  }

  /** Every cached policy was produced for some earlier call with its key. */
  ghost predicate Earned(setup: Setup, calls: seq<Version>, n: nat, cache: map<string, Compiled>)
    requires n <= |calls|
  {
    forall key :: key in cache ==>
      exists j :: 0 <= j < n && CacheKey(calls[j]) == key && MayProduce(setup, calls[j], cache[key])
  }

  lemma {:induction false} CacheEarned(
      setup: Setup, calls: seq<Version>, results: seq<Option<Compiled>>, caches: seq<map<string, Compiled>>, n: nat)
    requires CallRun(setup, calls, results, caches) && n <= |calls|
    ensures Earned(setup, calls, n, caches[n])
  {
    hide MayProduce, CacheKey, Accepts;
    if n > 0 {
      CacheEarned(setup, calls, results, caches, n - 1);
      assert RaceStep(setup, caches[n - 1], calls[n - 1], results[n - 1], caches[n]);
      forall key | key in caches[n]
        ensures exists j :: 0 <= j < n && CacheKey(calls[j]) == key && MayProduce(setup, calls[j], caches[n][key])
      {
        if key in caches[n - 1] && caches[n][key] == caches[n - 1][key] {
          var j :| 0 <= j < n - 1 && CacheKey(calls[j]) == key && MayProduce(setup, calls[j], caches[n - 1][key]);
        } else {
          assert CacheKey(calls[n - 1]) == key;
        }
      }
    }
  }

  lemma CallFaithful(
      setup: Setup, versions: iset<Version>, calls: seq<Version>, results: seq<Option<Compiled>>,
      caches: seq<map<string, Compiled>>, i: nat)
    requires CallRun(setup, calls, results, caches) && i < |calls|
    requires KeysTell(setup, versions) && forall v :: v in calls ==> v in versions
    ensures Faithful(setup, calls[i], results[i])
  {
    hide CacheKey, MayProduce, Accepts;
    CacheEarned(setup, calls, results, caches, i);
    assert RaceStep(setup, caches[i], calls[i], results[i], caches[i + 1]);
    var key := CacheKey(calls[i]);
    if key in caches[i] && results[i] == Some(caches[i][key]) {
      var j :| 0 <= j < i && CacheKey(calls[j]) == key && MayProduce(setup, calls[j], caches[i][key]);
      assert calls[j] in versions && calls[i] in versions;
      assert SameProducts(setup, calls[j], calls[i]);
    }
  }

  /** Two calls that tell two versions apart only by their products. */
  lemma SecondCallStale(setup: Setup, versions: iset<Version>, v: Version, w: Version, c: Compiled)
    requires v in versions && w in versions && CacheKey(v) == CacheKey(w)
    requires MayProduce(setup, v, c) && !MayProduce(setup, w, c)
    ensures !Transparent(setup, versions)
  {
    hide CacheKey, MayProduce, Accepts;
    var calls, results := [v, w], [Some(c), Some(c)];
    var cache := map[CacheKey(v) := c];
    var caches: seq<map<string, Compiled>> := [map[], cache, cache];
    assert cache == caches[0][CacheKey(v) := c];
    assert RaceStep(setup, caches[0], calls[0], results[0], caches[1]);
    assert RaceStep(setup, caches[1], calls[1], results[1], caches[2]);
    assert CallRun(setup, calls, results, caches);
    assert !Faithful(setup, calls[1], results[1]);
  }

  /** Main result: the cache is transparent for a set of versions, however their calls
      overlap, exactly when equal keys mean equal products. */
  lemma CacheTransparentExactly(setup: Setup, versions: iset<Version>)
    ensures Transparent(setup, versions) <==> KeysTell(setup, versions)
  {
    hide CacheKey, MayProduce, Accepts, CallRun, Faithful;
    if KeysTell(setup, versions) {
      forall calls, results, caches |
        CallRun(setup, calls, results, caches) && (forall v :: v in calls ==> v in versions)
        ensures AllFaithful(setup, calls, results)
      {
        RunLengths(setup, calls, results, caches);
        forall i | 0 <= i < |calls|
          ensures Faithful(setup, calls[i], results[i])
        {
          CallFaithful(setup, versions, calls, results, caches, i);
        }
      }
    } else {
      var v, w :| v in versions && w in versions && CacheKey(v) == CacheKey(w) && !SameProducts(setup, v, w);
      var c :| MayProduce(setup, v, c) != MayProduce(setup, w, c);
      if MayProduce(setup, v, c) {
        SecondCallStale(setup, versions, v, w, c);
      } else {
        SecondCallStale(setup, versions, w, v, c);
      }
    }
  }

  lemma RunLengths(
      setup: Setup, calls: seq<Version>, results: seq<Option<Compiled>>, caches: seq<map<string, Compiled>>)
    requires CallRun(setup, calls, results, caches)
    ensures |results| == |calls|
  {
    hide RaceStep;
  }

  lemma SameBundleProducts(setup: Setup, v: Version, w: Version)
    requires v.bundle == w.bundle
    ensures SameProducts(setup, v, w)
  {
    hide Finished, CompilesTo, AcceptsText;
  }

  /** Checksums computed from the bundle tell versions apart, as far as the digest does. */
  lemma ComputedChecksumsTell(setup: Setup, versions: iset<Version>, digest: string -> string)
    requires forall v :: v in versions ==> v.checksum == digest(v.bundle) && '|' !in Norm(v.policySetId)
    requires forall v, w :: v in versions && w in versions && Norm(digest(v.bundle)) == Norm(digest(w.bundle)) ==>
        v.bundle == w.bundle
    ensures KeysTell(setup, versions)
  {
    hide CacheKey, MayProduce, Norm, SameProducts;
    forall v, w | v in versions && w in versions && CacheKey(v) == CacheKey(w)
      ensures SameProducts(setup, v, w)
    {
      CacheKeyInjective(v, w);
      SameBundleProducts(setup, v, w);
    }
  }

  /** Versions of one store tell themselves apart by set and number, whatever their
      checksums. */
  lemma NumbersTell(setup: Setup, versions: iset<Version>)
    requires forall v :: v in versions ==> '|' !in v.policySetId && Normal(v.policySetId)
    requires forall v, w :: v in versions && w in versions && v.policySetId == w.policySetId && v.number == w.number ==>
        v == w
    ensures KeysTell(setup, versions)
  {
    hide CacheKey, MayProduce, Norm, SameProducts;
    forall v, w | v in versions && w in versions && CacheKey(v) == CacheKey(w)
      ensures SameProducts(setup, v, w)
    {
      CacheKeyInjective(v, w);
      SameBundleProducts(setup, v, w);
    }
  }

  /** A hit ignores the bundle: a second version under a used key gets the first one's
      policy, whether or not its own bundle even compiles. */
  lemma ReusedKeyIsStale(
      setup: Setup, cache: map<string, Compiled>, first: Version, second: Version, r: Option<Compiled>,
      middle: map<string, Compiled>, s: Option<Compiled>, after: map<string, Compiled>)
    requires CacheKey(first) == CacheKey(second) && r.Some?
    requires CacheStep(setup, cache, first, r, middle) && CacheStep(setup, middle, second, s, after)
    ensures s == r && after == middle
  {
    hide CacheKey, MayProduce, Accepts;
  }
}
