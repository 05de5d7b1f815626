/** Serving one scope: what a resolved runtime runs, given that the shared cache tells the
    scope's versions apart. */
module Serving {
  import opened Text
  import opened Lists
  import opened Policy
  import opened Compile
  import opened Compat
  import opened Resolver
  import opened Engine
  import opened Rollouts
  import opened Runtimes
  import opened Rollback
  import Meaning
  import Walk

  // ----- stored versions and the cache -----

  ghost predicate InStore(st: StoreState, v: Version) {
    (v.policySetId, v.number) in st.versions && st.versions[(v.policySetId, v.number)] == v
  }

  ghost predicate VersionsKeyed(st: StoreState) {
    forall id, n :: (id, n) in st.versions ==>
      st.versions[(id, n)].policySetId == id && st.versions[(id, n)].number == n
      && ValidSetId(id) && Normal(id) && n > 0
  }

  lemma KeyedVersion(st: StoreState, id: string, n: int)
    requires VersionsKeyed(st) && (id, n) in st.versions
    ensures InStore(st, st.versions[(id, n)]) && n > 0 && ValidSetId(id) && Normal(id)
    ensures st.versions[(id, n)].policySetId == id && st.versions[(id, n)].number == n
  {
    hide ValidSetId, Normal;
  }

  /** A hit on the version returns one of its own products. */
  ghost predicate HitFaithful(setup: Setup, cache: map<string, Compiled>, v: Version) {
    CacheKey(v) in cache ==> MayProduce(setup, v, cache[CacheKey(v)])
  }

  ghost predicate Sound(setup: Setup, st: StoreState, cache: map<string, Compiled>) {
    VersionsKeyed(st) && forall v :: InStore(st, v) ==> HitFaithful(setup, cache, v)
  }

  ghost predicate Grows(cache: map<string, Compiled>, after: map<string, Compiled>) {
    forall key :: key in cache ==> key in after && after[key] == cache[key]
  }

  lemma ValidSetIdNoBar(id: string)
    requires ValidSetId(id)
    ensures '|' !in id
  {
  }

  /** Within one store, keys name versions whatever their checksums. */
  lemma SameKeySameVersion(st: StoreState, v: Version, w: Version)
    requires VersionsKeyed(st) && InStore(st, v) && InStore(st, w) && CacheKey(v) == CacheKey(w)
    ensures v == w
  {
    KeyedVersion(st, v.policySetId, v.number);
    KeyedVersion(st, w.policySetId, w.number);
    ValidSetIdNoBar(v.policySetId);
    ValidSetIdNoBar(w.policySetId);
    CacheKeyInjective(v, w);
    hide CacheKey, ValidSetId, Norm;
  }

  /** What one cached call on a stored version returns and leaves behind. */
  lemma CallExact(
      setup: Setup, st: StoreState, cache: map<string, Compiled>, v: Version, c: Option<Compiled>,
      after: map<string, Compiled>)
    requires Sound(setup, st, cache) && InStore(st, v) && CacheStep(setup, cache, v, c, after)
    ensures Sound(setup, st, after) && Grows(cache, after)
    ensures c.Some? <==> Accepts(setup, v)
    ensures c.Some? ==> MayProduce(setup, v, c.value) && CacheKey(v) in after && after[CacheKey(v)] == c.value
  {
    hide CacheKey, MayProduce, Accepts, VersionsKeyed, InStore;
    assert HitFaithful(setup, cache, v);
    if c.Some? {
      ProducedAccepts(setup, v, c.value);
    }
    forall w | InStore(st, w)
      ensures HitFaithful(setup, after, w)
    {
      assert HitFaithful(setup, cache, w);
      if CacheKey(w) == CacheKey(v) {
        SameKeySameVersion(st, v, w);
      }
    }
  }

  lemma ProducedAccepts(setup: Setup, v: Version, c: Compiled)
    requires MayProduce(setup, v, c)
    ensures Accepts(setup, v)
  {
  }

  // ----- loading a pointer -----

  /** The number is that of a stored version that compiles. */
  ghost predicate Usable(setup: Setup, st: StoreState, number: Option<int>) {
    && number.Some? && number.value > 0 && (Norm(setup.policySet), number.value) in st.versions
    && Accepts(setup, st.versions[(Norm(setup.policySet), number.value)])
  }

  function VersionOf(setup: Setup, st: StoreState, n: int): Version
    requires (Norm(setup.policySet), n) in st.versions
  {
    st.versions[(Norm(setup.policySet), n)]
  }

  lemma UsableVersion(setup: Setup, st: StoreState, number: Option<int>)
    requires VersionsKeyed(st) && Usable(setup, st, number)
    ensures GetVersion(st, setup.policySet, number.value)
        in {Fetch<Version>.Unavailable, Fetch<Version>.Found(VersionOf(setup, st, number.value))}
    ensures InStore(st, VersionOf(setup, st, number.value))
  {
    KeyedVersion(st, Norm(setup.policySet), number.value);
    hide VersionsKeyed, ValidSetId, Accepts, Norm;
  }

  lemma FetchedVersion(setup: Setup, st: StoreState, setId: string, n: int)
    requires VersionsKeyed(st) && GetVersion(st, setId, n).Found?
    ensures var v := GetVersion(st, setId, n).value;
        && (Norm(setId), n) in st.versions && v == st.versions[(Norm(setId), n)]
        && InStore(st, v) && v.number == n && n > 0
  {
    KeyedVersion(st, Norm(setId), n);
    hide VersionsKeyed, ValidSetId, Norm;
  }

  /** Loading a pointer gives a product of the version it names, when that version is stored
      and compiles, and nothing otherwise; unless a read fails. */
  lemma LoadExact(
      setup: Setup, st: StoreState, cache: map<string, Compiled>, number: Option<int>,
      r: Result<Option<Loaded>>, after: map<string, Compiled>)
    requires Sound(setup, st, cache) && LoadMay(setup, cache, st, number, r, after)
    ensures Sound(setup, st, after) && Grows(cache, after)
    ensures r.Ok? ==> (r.value.Some? <==> Usable(setup, st, number))
    ensures r.Ok? && r.value.Some? ==>
        && (Norm(setup.policySet), number.value) in st.versions && r.value.value.number == number.value
        && var v := VersionOf(setup, st, number.value);
           && MayProduce(setup, v, r.value.value.policy)
           && CacheKey(v) in after && after[CacheKey(v)] == r.value.value.policy
  {
    hide CacheKey, MayProduce, Accepts, VersionsKeyed, InStore, HitFaithful, CacheStep, GetVersion, Norm;
    if Usable(setup, st, number) {
      UsableVersion(setup, st, number);
    }
    if number.Some? && number.value > 0 && GetVersion(st, setup.policySet, number.value).Found? {
      var v := GetVersion(st, setup.policySet, number.value).value;
      FetchedVersion(setup, st, setup.policySet, number.value);
      var c :| CacheStep(setup, cache, v, c, after)
        && r == Ok(if c.Some? then Some(Loaded(v.number, c.value)) else None);
      CallExact(setup, st, cache, v, c, after);
    }
  }

  // ----- the resolved runtime -----

  /** The policy a pointer stands for: a product of its version, else the built-in one. */
  ghost predicate PolicyOf(setup: Setup, st: StoreState, number: Option<int>, c: Compiled) {
    if Usable(setup, st, number) then MayProduce(setup, VersionOf(setup, st, number.value), c)
    else c == setup.fallback
  }

  /** The engine runs this policy. */
  ghost predicate RunsPolicy(st: StoreState, c: Compiled, engine: Engine) {
    Meaning.EngineFor(Some(st.tuples), c, engine)
  }

  ghost predicate ActiveServed(setup: Setup, st: StoreState, active: Option<int>, rt: Runtime) {
    && rt.version == (if Usable(setup, st, active) then active.value else 0)
    && exists c :: PolicyOf(setup, st, active, c) && RunsPolicy(st, c, rt.engine) && rt.registry == c.routes
  }

  ghost predicate CandidateServed(setup: Setup, st: StoreState, candidate: Option<int>, rt: Runtime) {
    && (rt.candidate.Some? <==> Usable(setup, st, candidate))
    && (rt.candidate.Some? ==>
          && rt.candidate.value.version == candidate.value
          && exists c :: PolicyOf(setup, st, candidate, c) && RunsPolicy(st, c, rt.candidate.value.engine))
  }

  /** What the cache holds afterwards for the versions a runtime runs. */
  ghost predicate CachedAs(setup: Setup, st: StoreState, cache: map<string, Compiled>, n: int, engine: Engine) {
    && (Norm(setup.policySet), n) in st.versions
    && var key := CacheKey(VersionOf(setup, st, n));
       key in cache && RunsPolicy(st, cache[key], engine)
  }

  ghost predicate RuntimeCached(setup: Setup, st: StoreState, cache: map<string, Compiled>, rt: Runtime) {
    && (rt.version > 0 ==> CachedAs(setup, st, cache, rt.version, rt.engine))
    && (rt.candidate.Some? ==>
          CachedAs(setup, st, cache, rt.candidate.value.version, rt.candidate.value.engine))
  }

  lemma AssembledExact(
      setup: Setup, st: StoreState, cache: map<string, Compiled>, stored: Rollout,
      active: Option<Loaded>, middle: map<string, Compiled>, candidate: Option<Loaded>, after: map<string, Compiled>,
      rt: Runtime)
    requires Sound(setup, st, cache)
    requires LoadMay(setup, cache, st, stored.active, Ok(active), middle)
    requires LoadMay(setup, middle, st, stored.candidate, Ok(candidate), after)
    requires Assembled(setup, Some(st.tuples), RuntimeRollout(stored, setup.policySet), active, candidate, rt)
    ensures Sound(setup, st, after) && Grows(cache, after)
    ensures rt.rollout == RuntimeRollout(stored, setup.policySet)
    ensures ActiveServed(setup, st, stored.active, rt) && CandidateServed(setup, st, stored.candidate, rt)
    ensures RuntimeCached(setup, st, after, rt)
  {
    hide LoadMay, Sound, MayProduce, CacheKey, Usable, Norm, Meaning.EngineFor, RuntimeRollout;
    LoadExact(setup, st, cache, stored.active, Ok(active), middle);
    LoadExact(setup, st, middle, stored.candidate, Ok(candidate), after);
    var c := if active.Some? then active.value.policy else setup.fallback;
    assert PolicyOf(setup, st, stored.active, c) && RunsPolicy(st, c, rt.engine) && rt.registry == c.routes;
    if candidate.Some? {
      var d := candidate.value.policy;
      assert PolicyOf(setup, st, stored.candidate, d) && RunsPolicy(st, d, rt.candidate.value.engine);
    }
  }

  lemma PointersKept(stored: Rollout, setId: string)
    ensures RuntimeRollout(stored, setId).active == stored.active
    ensures RuntimeRollout(stored, setId).candidate == stored.candidate
  {
    hide Norm, RuntimeMode, Sort, Dedupe, RuntimeCanary, CanonicalVersions;
  }

  /** Main result for one scope: the runtime resolved from a row runs exactly the policies its
      pointers stand for. */
  lemma ResolvedExactly(
      setup: Setup, st: StoreState, cache: map<string, Compiled>, stored: Rollout, rt: Runtime,
      after: map<string, Compiled>)
    requires Sound(setup, st, cache) && GetRollout(st, setup.policySet) == Found(stored)
    requires ResolveMay(setup, cache, Some(st), Ok(rt), after)
    ensures Sound(setup, st, after) && Grows(cache, after)
    ensures rt.rollout == RuntimeRollout(stored, setup.policySet)
    ensures ActiveServed(setup, st, stored.active, rt) && CandidateServed(setup, st, stored.candidate, rt)
    ensures RuntimeCached(setup, st, after, rt)
  {
    hide LoadMay, Sound, Assembled, GetRollout, RuntimeRollout, ActiveServed, CandidateServed, RuntimeCached, Grows;
    var rollout := RuntimeRollout(stored, setup.policySet);
    PointersKept(stored, setup.policySet);
    var active, middle :| LoadMay(setup, cache, st, rollout.active, active, middle) && active.Ok?
      && exists candidate ::
           && LoadMay(setup, middle, st, rollout.candidate, candidate, after) && candidate.Ok?
           && Assembled(setup, Some(st.tuples), rollout, active.value, candidate.value, rt);
    var candidate :| LoadMay(setup, middle, st, rollout.candidate, candidate, after) && candidate.Ok?
      && Assembled(setup, Some(st.tuples), rollout, active.value, candidate.value, rt);
    AssembledExact(setup, st, cache, stored, active.value, middle, candidate.value, after, rt);
  }

  /** Without a row the built-in policy serves everyone. */
  lemma ResolvedWithoutRow(
      setup: Setup, st: StoreState, cache: map<string, Compiled>, rt: Runtime, after: map<string, Compiled>)
    requires GetRollout(st, setup.policySet) == Missing && ResolveMay(setup, cache, Some(st), Ok(rt), after)
    ensures after == cache && rt.version == 0 && rt.candidate == None && rt.rollout == NoRollout(setup.policySet)
    ensures RunsPolicy(st, setup.fallback, rt.engine) && rt.registry == setup.fallback.routes
  {
    hide GetRollout, Meaning.EngineFor;
  }

  // ----- what a request is decided by -----

  /** The policy that is to decide: the candidate's when it is chosen, else the active one. */
  ghost predicate Intended(setup: Setup, st: StoreState, stored: Rollout, fromCandidate: bool, c: Compiled) {
    if fromCandidate then Usable(setup, st, stored.candidate) && PolicyOf(setup, st, stored.candidate, c)
    else PolicyOf(setup, st, stored.active, c)
  }

  ghost predicate CandidateDue(
      setup: Setup, st: StoreState, stored: Rollout, input: Input, hash: string -> Bucket)
  {
    && Norm(stored.mode) == ENFORCE
    && Targets(RuntimeRollout(stored, setup.policySet), input, hash)
    && Usable(setup, st, stored.candidate)
    && stored.candidate.value in stored.validated
  }

  lemma RuntimeLists(stored: Rollout, setId: string)
    ensures RuntimeRollout(stored, setId).mode == ENFORCE <==> Norm(stored.mode) == ENFORCE
    ensures forall v :: Validated(RuntimeRollout(stored, setId), v) <==> v > 0 && v in stored.validated
  {
    CanonicalVersionsExact(stored.validated);
    hide Norm, Sort, Dedupe, RuntimeCanary, CanonicalVersions;
  }

  /** The chosen engine runs the intended policy, and the candidate is chosen exactly when due. */
  lemma ChosenExactly(
      setup: Setup, st: StoreState, stored: Rollout, rt: Runtime, input: Input, hash: string -> Bucket)
    requires rt.rollout == RuntimeRollout(stored, setup.policySet)
    requires ActiveServed(setup, st, stored.active, rt) && CandidateServed(setup, st, stored.candidate, rt)
    ensures var choice := Choose(rt, input, hash);
        && (choice.fromCandidate <==> CandidateDue(setup, st, stored, input, hash))
        && (exists c :: Intended(setup, st, stored, choice.fromCandidate, c) && RunsPolicy(st, c, choice.engine))
        && choice.version ==
           if choice.fromCandidate then stored.candidate.value
           else if Usable(setup, st, stored.active) then stored.active.value
           else 0
  {
    RuntimeLists(stored, setup.policySet);
    var choice := Choose(rt, input, hash);
    UsablePositive(setup, st, stored.candidate);
    hide Norm, RuntimeRollout, Targets, Usable, MayProduce, Meaning.EngineFor, PolicyOf, Validated, RunsPolicy;
    if choice.fromCandidate {
      var c :| PolicyOf(setup, st, stored.candidate, c) && RunsPolicy(st, c, rt.candidate.value.engine);
      assert Intended(setup, st, stored, true, c);
    } else {
      var c :| PolicyOf(setup, st, stored.active, c) && RunsPolicy(st, c, rt.engine) && rt.registry == c.routes;
      assert Intended(setup, st, stored, false, c);
    }
  }

  /** Main result: a request is shadowed exactly when the mode is shadow, the request is targeted
      and the candidate is stored, compiles and is validated; the shadow then runs a product
      of the candidate. */
  lemma ShadowedExactly(
      setup: Setup, st: StoreState, stored: Rollout, rt: Runtime, input: Input, hash: string -> Bucket)
    requires rt.rollout == RuntimeRollout(stored, setup.policySet)
    requires CandidateServed(setup, st, stored.candidate, rt)
    ensures ShadowEvaluates(rt, input, hash) <==>
        && Norm(stored.mode) == "shadow"
        && Targets(RuntimeRollout(stored, setup.policySet), input, hash)
        && Usable(setup, st, stored.candidate) && stored.candidate.value in stored.validated
    ensures ShadowEvaluates(rt, input, hash) ==>
        exists c :: PolicyOf(setup, st, stored.candidate, c) && RunsPolicy(st, c, rt.candidate.value.engine)
  {
    RuntimeRow(stored, setup.policySet);
    UsablePositive(setup, st, stored.candidate);
    hide Norm, RuntimeRollout, Targets, Usable, PolicyOf, RunsPolicy;
  }

  lemma UsablePositive(setup: Setup, st: StoreState, number: Option<int>)
    ensures Usable(setup, st, number) ==> number.Some? && number.value > 0
  {
  }

  /** An engine that runs a well-formed policy decides what the policy means. */
  lemma RunsDecides(st: StoreState, c: Compiled, engine: Engine, input: Input, allowed: bool, stage: Stage)
    requires RunsPolicy(st, c, engine) && WellFormed(c) && Walk.ValidStore(st.tuples)
    requires MayDecide(engine, input, allowed, stage)
    ensures allowed ==> Meaning.Authorizes(Some(st.tuples), c, input)
    ensures Meaning.Visible(Some(st.tuples), c, input) ==> (allowed <==> Meaning.Authorizes(Some(st.tuples), c, input))
  {
    hide WellFormed, Walk.ValidStore, Meaning.EngineFor, Meaning.EngineOf, MayDecide;
    hide Meaning.Authorizes, Meaning.Visible;
    Meaning.EngineUnique(Some(st.tuples), c, engine);
    Meaning.DecisionMeaning(Some(st.tuples), c, input, allowed, stage);
  }

  lemma PolicyWellFormed(setup: Setup, st: StoreState, number: Option<int>, c: Compiled)
    requires GoodSetup(setup) && PolicyOf(setup, st, number, c)
    ensures WellFormed(c)
  {
    hide CompilesTo, NoClashes, WellFormedBundle, WellFormed, MayProduce, Accepts, Norm;
    if Usable(setup, st, number) {
      ProducesWellFormed(setup, VersionOf(setup, st, number.value), c);
    } else {
      CompiledWellFormed(setup.builtIn, setup.fallback);
    }
  }

  // ----- runtimes exist -----

  /** A row without candidate whose active version loads can be served. */
  lemma ServeExists(
      setup: Setup, st: StoreState, cache: map<string, Compiled>, stored: Rollout, n: int, c: Compiled,
      after: map<string, Compiled>)
    returns (rt: Runtime)
    requires GetRollout(st, setup.policySet) == Found(stored) && stored.candidate == None && WellFormed(c)
    requires LoadMay(setup, cache, st, stored.active, Ok(Some(Loaded(n, c))), after)
    ensures ResolveMay(setup, cache, Some(st), Ok(rt), after)
    ensures rt.version == n && rt.registry == c.routes && RunsPolicy(st, c, rt.engine)
  {
    var tuples := Some(st.tuples);
    var rollout := RuntimeRollout(stored, setup.policySet);
    PointersKept(stored, setup.policySet);
    rt := Runtime(Meaning.EngineOf(tuples, c), c.routes, n, rollout, None);
    Meaning.EngineExists(tuples, c);
    NothingLoads(setup, after, st);
    hide GetRollout, LoadMay, RuntimeRollout, Meaning.EngineFor, Meaning.EngineOf, WellFormed;
    assert Assembled(setup, tuples, rollout, Some(Loaded(n, c)), None, rt);
    ResolvedTo(setup, cache, st, stored, Ok(Some(Loaded(n, c))), after, Ok(None), Ok(rt), after);
  }

  lemma NothingLoads(setup: Setup, cache: map<string, Compiled>, st: StoreState)
    ensures LoadMay(setup, cache, st, None, Ok(None), cache)
  {
  }
}
