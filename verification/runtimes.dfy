/** Resolving the runtime policy of a request from the persisted rollout, and choosing the
    engine that decides the request. */
module Runtimes {
  import opened Text
  import opened Lists
  import opened Policy
  import opened Compile
  import opened Compat
  import opened Resolver
  import opened Engine
  import opened Rollouts
  import Meaning
  import Walk

  datatype Candidate = Candidate(engine: Engine, version: int)

  datatype Runtime = Runtime(
    engine: Engine, registry: map<string, Route>, version: int, rollout: Rollout, candidate: Option<Candidate>)

  datatype Loaded = Loaded(number: int, policy: Compiled)

  function NoRollout(policySet: string): Rollout {
    Rollout(policySet, None, None, DISABLED, [], [], 100, [])
  }

  /** Loading the version a pointer names: no pointer and a missing row load nothing, a
      failing read is an error, and a bundle that does not compile is passed over. */
  ghost predicate LoadMay(
      setup: Setup, cache: map<string, Compiled>, st: StoreState, number: Option<int>,
      r: Result<Option<Loaded>>, after: map<string, Compiled>)
  {
    if number.None? || number.value <= 0 then r == Ok(None) && after == cache
    else match GetVersion(st, setup.policySet, number.value)
      case Unavailable => r.Err? && after == cache
      case Missing => r == Ok(None) && after == cache
      case Found(v) =>
        exists c :: CacheStep(setup, cache, v, c, after)
          && r == Ok(if c.Some? then Some(Loaded(v.number, c.value)) else None)
  }

  ghost predicate Assembled(
      setup: Setup, tuples: Option<Walk.Store>, rollout: Rollout,
      active: Option<Loaded>, candidate: Option<Loaded>, rt: Runtime)
  {
    var policy := if active.Some? then active.value.policy else setup.fallback;
    && rt.rollout == rollout
    && Meaning.EngineFor(tuples, policy, rt.engine) && rt.registry == policy.routes
    && rt.version == (if active.Some? then active.value.number else 0)
    && (rt.candidate.Some? <==> candidate.Some?)
    && (candidate.Some? ==>
          && rt.candidate.value.version == candidate.value.number
          && Meaning.EngineFor(tuples, candidate.value.policy, rt.candidate.value.engine))
  }

  ghost predicate ResolveMay(
      setup: Setup, cache: map<string, Compiled>, store: Option<StoreState>,
      r: Result<Runtime>, after: map<string, Compiled>)
  {
    match store
    case None =>
      r.Ok? && after == cache && Assembled(setup, None, NoRollout(setup.policySet), None, None, r.value)
    case Some(st) =>
      match GetRollout(st, setup.policySet)
      case Unavailable => r.Err? && after == cache
      case Missing =>
        r.Ok? && after == cache && Assembled(setup, Some(st.tuples), NoRollout(setup.policySet), None, None, r.value)
      case Found(stored) =>
        var rollout := RuntimeRollout(stored, setup.policySet);
        exists active, middle ::
          && LoadMay(setup, cache, st, rollout.active, active, middle)
          && if active.Err? then r.Err? && after == middle
             else exists candidate ::
               && LoadMay(setup, middle, st, rollout.candidate, candidate, after)
               && if candidate.Err? then r.Err?
                  else r.Ok? && Assembled(setup, Some(st.tuples), rollout, active.value, candidate.value, r.value)
  }

  method LoadVersion(resolver: RuntimeResolver, st: StoreState, number: Option<int>)
    returns (r: Result<Option<(int, PolicyMaps)>>)
    requires resolver.Valid()
    modifies resolver`cacheByKey
    ensures resolver.Valid() && resolver.Config() == old(resolver.Config())
    ensures LoadMay(
      resolver.Config(), old(resolver.Cache()), st, number,
      if r.Err? then Err(r.message) else Ok(Abstract(r.value)), resolver.Cache())
    ensures forall key :: key in old(resolver.cacheByKey) ==>
        key in resolver.cacheByKey && resolver.cacheByKey[key] == old(resolver.cacheByKey[key])
    ensures r.Ok? && r.value.Some? ==> r.value.value.1 in resolver.cacheByKey.Values
  {
    hide CacheStep, CacheKey, GoodSetup;
    if number.None? || number.value <= 0 {
      return Ok(None);
    }
    var fetched := GetVersion(st, resolver.policySet, number.value);
    match fetched
    case Unavailable =>
      return Err("resolve policy version");
    case Missing =>
      return Ok(None);
    case Found(v) =>
      var policy := resolver.CompiledVersion(v);
      if policy.None? {
        return Ok(None);
      }
      return Ok(Some((v.number, policy.value)));
  }

  lemma ResolvedTo(
      setup: Setup, cache: map<string, Compiled>, st: StoreState, stored: Rollout,
      active: Result<Option<Loaded>>, middle: map<string, Compiled>, candidate: Result<Option<Loaded>>,
      r: Result<Runtime>, after: map<string, Compiled>)
    requires GetRollout(st, setup.policySet) == Found(stored)
    requires var rollout := RuntimeRollout(stored, setup.policySet);
        && LoadMay(setup, cache, st, rollout.active, active, middle)
        && if active.Err? then r.Err? && after == middle
           else
             && LoadMay(setup, middle, st, rollout.candidate, candidate, after)
             && if candidate.Err? then r.Err?
                else r.Ok? && Assembled(setup, Some(st.tuples), rollout, active.value, candidate.value, r.value)
    ensures ResolveMay(setup, cache, Some(st), r, after)
  {
    hide GetRollout, LoadMay, Assembled, RuntimeRollout;
  }

  ghost function Abstract(loaded: Option<(int, PolicyMaps)>): Option<Loaded>
    reads if loaded.Some? then {loaded.value.1} else {}
  {
    if loaded.None? then None else Some(Loaded(loaded.value.0, loaded.value.1.Value()))
  }

  method Resolve(resolver: RuntimeResolver, store: Option<StoreState>) returns (r: Result<Runtime>)
    requires resolver.Valid()
    modifies resolver`cacheByKey
    ensures resolver.Valid() && resolver.Config() == old(resolver.Config())
    ensures ResolveMay(resolver.Config(), old(resolver.Cache()), store, r, resolver.Cache())
    ensures forall key :: key in old(resolver.cacheByKey) ==>
        key in resolver.cacheByKey && resolver.cacheByKey[key] == old(resolver.cacheByKey[key])
  {
    hide CacheStep, CacheKey, GoodSetup, LoadMay, Meaning.EngineFor, RuntimeRollout, NoRollout, GetRollout;
    var tuples := if store.None? then None else Some(store.value.tuples);
    var engine := Meaning.NewEngine(tuples, resolver.fallback.Value());
    var resolved := Runtime(engine, resolver.fallback.routes, 0, NoRollout(resolver.policySet), None);
    if store.None? {
      return Ok(resolved);
    }
    var st := store.value;
    var fetched := GetRollout(st, resolver.policySet);
    if fetched.Unavailable? {
      return Err("resolve policy rollout");
    }
    if fetched.Missing? {
      return Ok(resolved);
    }
    r := ResolveStored(resolver, st, fetched.value, resolved);
  }

  method ResolveStored(resolver: RuntimeResolver, st: StoreState, stored: Rollout, builtIn: Runtime)
    returns (r: Result<Runtime>)
    requires resolver.Valid() && GetRollout(st, resolver.policySet) == Found(stored)
    requires Assembled(resolver.Config(), Some(st.tuples), NoRollout(resolver.policySet), None, None, builtIn)
    modifies resolver`cacheByKey
    ensures resolver.Valid() && resolver.Config() == old(resolver.Config())
    ensures ResolveMay(resolver.Config(), old(resolver.Cache()), Some(st), r, resolver.Cache())
    ensures forall key :: key in old(resolver.cacheByKey) ==>
        key in resolver.cacheByKey && resolver.cacheByKey[key] == old(resolver.cacheByKey[key])
  {
    hide ResolveMay, CacheStep, CacheKey, GoodSetup, LoadMay, Meaning.EngineFor, RuntimeRollout, NoRollout, GetRollout;
    hide Norm, Accepts, MayProduce, Lower, Trim;
    var rollout := NormalizeRuntimeRollout(stored, resolver.policySet);
    var resolved := builtIn.(rollout := rollout);
    ghost var cache := resolver.Cache();
    var active := LoadVersion(resolver, st, rollout.active);
    if active.Err? {
      r := Err(active.message);
      ResolvedTo(resolver.Config(), cache, st, stored, Err(active.message), resolver.Cache(), Ok(None), r,
                 resolver.Cache());
      return;
    }
    ghost var activeLoaded, middle := Abstract(active.value), resolver.Cache();
    if active.value.Some? {
      var activeEngine := Meaning.NewEngine(Some(st.tuples), active.value.value.1.Value());
      resolved := resolved.(
        engine := activeEngine, registry := active.value.value.1.routes, version := active.value.value.0);
    }
    var candidate := LoadVersion(resolver, st, rollout.candidate);
    if candidate.Err? {
      r := Err(candidate.message);
      ResolvedTo(resolver.Config(), cache, st, stored, Ok(activeLoaded), middle, Err(candidate.message), r,
                 resolver.Cache());
      return;
    }
    if candidate.value.Some? {
      var candidateEngine := Meaning.NewEngine(Some(st.tuples), candidate.value.value.1.Value());
      resolved := resolved.(candidate := Some(Candidate(candidateEngine, candidate.value.value.0)));
    }
    r := Ok(resolved);
    ResolvedTo(
      resolver.Config(), cache, st, stored, Ok(activeLoaded), middle, Ok(Abstract(candidate.value)), r,
      resolver.Cache());
  }

  // ----- choosing the deciding engine -----

  datatype Choice = Choice(engine: Engine, version: int, fromCandidate: bool)

  function Choose(rt: Runtime, input: Input, hash: string -> Bucket): Choice {
    if rt.rollout.mode == ENFORCE && Targets(rt.rollout, input, hash)
      && rt.candidate.Some? && Validated(rt.rollout, rt.candidate.value.version)
    then Choice(rt.candidate.value.engine, rt.candidate.value.version, true)
    else Choice(rt.engine, rt.version, false)
  }

  /** Whether a shadow evaluation of the candidate runs beside the decision. */
  predicate ShadowEvaluates(rt: Runtime, input: Input, hash: string -> Bucket) {
    && rt.rollout.mode == SHADOW && Targets(rt.rollout, input, hash)
    && rt.candidate.Some? && Validated(rt.rollout, rt.candidate.value.version)
  }

  /** The engine chosen for this request can reach this verdict. */
  ghost predicate MayVerdict(rt: Runtime, input: Input, hash: string -> Bucket, allowed: bool) {
    exists stage :: MayDecide(Choose(rt, input, hash).engine, input, allowed, stage)
  }

  ghost predicate MayFail(rt: Runtime, input: Input, hash: string -> Bucket) {
    exists k: nat :: k < 4 && StageFails(Choose(rt, input, hash).engine, k, input)
  }

  /** The first `n` targets could be loaded and allowed. */
  ghost predicate AllowedUpTo(rt: Runtime, inputs: seq<Result<Input>>, hash: string -> Bucket, n: nat)
    requires n <= |inputs|
  {
    forall i :: 0 <= i < n ==> inputs[i].Ok? && MayVerdict(rt, inputs[i].value, hash, true)
  }

  /** Target `i` is denied, after all before it were allowed. */
  ghost predicate DeniedAt(rt: Runtime, inputs: seq<Result<Input>>, hash: string -> Bucket, i: nat) {
    && i < |inputs| && AllowedUpTo(rt, inputs, hash, i)
    && inputs[i].Ok? && MayVerdict(rt, inputs[i].value, hash, false)
  }

  /** Target `i` cannot be loaded or decided, after all before it were allowed. */
  ghost predicate FailsAt(rt: Runtime, inputs: seq<Result<Input>>, hash: string -> Bucket, i: nat) {
    && i < |inputs| && AllowedUpTo(rt, inputs, hash, i)
    && (inputs[i].Ok? ==> MayFail(rt, inputs[i].value, hash))
  }

  /** One target, decided by its own choice of engine. */
  method DecideTarget(rt: Runtime, input: Input, hash: string -> Bucket) returns (r: Result<bool>)
    ensures r.Ok? ==> MayVerdict(rt, input, hash, r.value)
    ensures r.Err? ==> MayFail(rt, input, hash)
  {
    hide Choose, MayDecide, StageFails, Explained, Trim;
    var decision := Decide(Some(Choose(rt, input, hash).engine), input);
    if decision.Err? {
      return Err(decision.message);
    }
    return Ok(decision.value.allowed);
  }

  /** Authorizing a batch: without authentication everything passes; otherwise every target
      is decided by its own choice of engine, and the first denial or error ends the batch. */
  method AuthorizeTargets(
      authenticated: bool, resolved: Result<Runtime>, inputs: seq<Result<Input>>, hash: string -> Bucket)
    returns (r: Result<bool>)
    ensures !authenticated ==> r == Ok(true)
    ensures authenticated && resolved.Err? ==> r == Err(resolved.message)
    ensures authenticated && resolved.Ok? && r == Ok(true) ==> AllowedUpTo(resolved.value, inputs, hash, |inputs|)
    ensures authenticated && resolved.Ok? && r == Ok(false) ==>
        exists i: nat :: DeniedAt(resolved.value, inputs, hash, i)
    ensures authenticated && resolved.Ok? && r.Err? ==> exists i: nat :: FailsAt(resolved.value, inputs, hash, i)
  {
    if !authenticated {
      return Ok(true);
    }
    if resolved.Err? {
      return Err(resolved.message);
    }
    var rt := resolved.value;
    for i := 0 to |inputs|
      invariant AllowedUpTo(rt, inputs, hash, i)
    {
      hide MayVerdict, MayFail;
      if inputs[i].Err? {
        assert FailsAt(rt, inputs, hash, i);
        return Err(inputs[i].message);
      }
      var decision := DecideTarget(rt, inputs[i].value, hash);
      if decision.Err? {
        assert FailsAt(rt, inputs, hash, i);
        return decision;
      }
      if !decision.value {
        assert DeniedAt(rt, inputs, hash, i);
        return Ok(false);
      }
    }
    return Ok(true);
  }
}
