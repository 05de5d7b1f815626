/** Whole runs of the policy system: many scopes, each with its own stored policies, share one
    resolver. Publishing versions, writing rollouts, rolling back, serving and simulating
    requests, store faults and restarts follow each other in any order. */
module Runs {
  import opened Text
  import opened Lists
  import opened Policy
  import opened Compile
  import opened Compat
  import opened Resolver
  import opened Engine
  import opened Rollouts
  import opened Runtimes
  import opened Rollback
  import opened Serving
  import Meaning
  import Walk

  /** A tenant's workspace. */
  datatype Scope = Scope(tenant: string, workspace: string)

  /** The persisted state of every scope, and the resolver's cache shared by all requests. */
  datatype State = State(stores: map<Scope, StoreState>, cache: map<string, Compiled>)

  datatype Operation =
    | CreateSet(id: string)
    | Publish(version: Version)
    | WriteRow(row: Rollout)
    | RollBack(policySetId: string, target: int, seen: Rollout, landed: bool)
    | Serve(result: Result<Runtime>)
    | Simulate(policySetId: string, number: int, policy: Option<Compiled>)
    | Disturb(tuples: Walk.Store, failing: set<Access>)

  datatype Event = Do(scope: Scope, operation: Operation) | Restart

  ghost predicate CanPublish(st: StoreState, v: Version) {
    && v.policySetId in st.sets && ValidSetId(v.policySetId) && Normal(v.policySetId)
    && v.number > 0 && (v.policySetId, v.number) !in st.versions
  }

  /** One operation in one scope. A rollback is its write; the row its handler saw may be any,
      so handlers may overlap. */
  ghost predicate Does(
      setup: Setup, st: StoreState, cache: map<string, Compiled>, op: Operation, after: StoreState,
      cacheAfter: map<string, Compiled>)
  {
    match op
    case CreateSet(id) =>
      after == st.(sets := st.sets + {id}) && cacheAfter == cache
    case Publish(v) =>
      CanPublish(st, v)
      && after == st.(versions := st.versions[(v.policySetId, v.number) := v]) && cacheAfter == cache
    case WriteRow(row) =>
      CanUpsert(st, row) && after == Upserted(st, row) && cacheAfter == cache
    case RollBack(policySetId, target, seen, landed) =>
      cacheAfter == cache
      && if landed then RollbackLands(st, setup.decode, policySetId, target, seen, after) else after == st
    case Serve(result) =>
      after == st && ResolveMay(setup, cache, Some(st), result, cacheAfter)
    case Simulate(policySetId, number, policy) =>
      after == st && GetVersion(st, policySetId, number).Found?
      && CacheStep(setup, cache, GetVersion(st, policySetId, number).value, policy, cacheAfter)
    case Disturb(tuples, failing) =>
      after == st.(tuples := tuples, failing := failing) && cacheAfter == cache
  }

  /** A restarted server keeps the stores and begins with an empty cache. */
  ghost predicate Step(setup: Setup, s: State, e: Event, t: State) {
    match e
    case Do(scope, op) =>
      && scope in s.stores && scope in t.stores && t.stores == s.stores[scope := t.stores[scope]]
      && Does(setup, s.stores[scope], s.cache, op, t.stores[scope], t.cache)
    case Restart =>
      t == s.(cache := map[])
  }

  ghost predicate AllKeyed(stores: map<Scope, StoreState>) {
    forall scope :: scope in stores ==> VersionsKeyed(stores[scope])
  }

  /** `states[i]` precedes `events[i]`. A server may start on stores that already hold
      versions, rows and tuples; only its cache is empty. */
  ghost predicate Run(setup: Setup, states: seq<State>, events: seq<Event>) {
    && |states| == |events| + 1
    && states[0].cache == map[] && AllKeyed(states[0].stores)
    && forall i :: 0 <= i < |events| ==> Step(setup, states[i], events[i], states[i + 1])
  }

  /** Exactly which versions can be published: of a known set, under its cleaned name, with a
      number of their own. */
  lemma PublishExact(setup: Setup, s: State, scope: Scope, v: Version)
    requires scope in s.stores
    ensures (exists t :: Step(setup, s, Do(scope, Publish(v)), t)) <==>
        && v.policySetId in s.stores[scope].sets && ValidSetId(v.policySetId) && Norm(v.policySetId) == v.policySetId
        && v.number >= 1 && (v.policySetId, v.number) !in s.stores[scope].versions
  {
    hide ValidSetId, Norm;
    var st := s.stores[scope];
    var t := s.(stores := s.stores[scope := st.(versions := st.versions[(v.policySetId, v.number) := v])]);
    assert t.stores == s.stores[scope := t.stores[scope]];
    if CanPublish(st, v) {
      assert Step(setup, s, Do(scope, Publish(v)), t);
    }
  }

  /** A published version is read back, in its scope only and under every spelling of its
      set's name; everything else stays as it is. */
  lemma PublishedReadBack(setup: Setup, s: State, scope: Scope, v: Version, t: State, other: Scope, setId: string)
    requires Step(setup, s, Do(scope, Publish(v)), t) && other in s.stores
    requires Norm(setId) == v.policySetId
    ensures scope in t.stores && other in t.stores && t.cache == s.cache
    ensures other != scope ==> t.stores[other] == s.stores[other]
    ensures ReadVersion(v.number) !in t.stores[scope].failing ==>
        GetVersion(t.stores[scope], setId, v.number) == Found(v)
    ensures t.stores[scope].rollouts == s.stores[scope].rollouts && t.stores[scope].tuples == s.stores[scope].tuples
  {
    hide ValidSetId, Norm;
  }

  // ----- what every step keeps -----

  ghost predicate Stored(stores: map<Scope, StoreState>, v: Version) {
    exists scope :: scope in stores && InStore(stores[scope], v)
  }

  ghost function StoredVersions(stores: map<Scope, StoreState>): iset<Version> {
    iset v | Stored(stores, v)
  }

  /** Each cached policy was produced for a stored version with that key, of some scope. */
  ghost predicate Backed(setup: Setup, stores: map<Scope, StoreState>, cache: map<string, Compiled>) {
    forall key :: key in cache ==> exists v :: Backs(setup, stores, key, cache[key], v)
  }

  ghost predicate Backs(
      setup: Setup, stores: map<Scope, StoreState>, key: string, c: Compiled, v: Version)
  {
    Stored(stores, v) && CacheKey(v) == key && MayProduce(setup, v, c)
  }

  ghost predicate Inv(setup: Setup, s: State) {
    AllKeyed(s.stores) && Backed(setup, s.stores, s.cache)
  }

  /** Versions never change or disappear, in any scope. */
  ghost predicate Extends(s: State, t: State) {
    && t.stores.Keys == s.stores.Keys
    && forall scope :: scope in s.stores ==> VersionsKept(s.stores[scope], t.stores[scope])
  }

  ghost predicate VersionsKept(st: StoreState, after: StoreState) {
    forall k :: k in st.versions ==> k in after.versions && after.versions[k] == st.versions[k]
  }

  lemma BackedMore(
      setup: Setup, stores: map<Scope, StoreState>, more: map<Scope, StoreState>, cache: map<string, Compiled>)
    requires Backed(setup, stores, cache)
    requires more.Keys == stores.Keys && forall scope :: scope in stores ==> VersionsKept(stores[scope], more[scope])
    ensures Backed(setup, more, cache)
  {
    hide MayProduce, CacheKey;
    forall key | key in cache
      ensures exists v :: Backs(setup, more, key, cache[key], v)
    {
      var v :| Backs(setup, stores, key, cache[key], v);
      var scope :| scope in stores && InStore(stores[scope], v);
      assert InStore(more[scope], v);
      assert Backs(setup, more, key, cache[key], v);
    }
  }

  lemma BackedCall(
      setup: Setup, stores: map<Scope, StoreState>, cache: map<string, Compiled>, v: Version, c: Option<Compiled>,
      after: map<string, Compiled>)
    requires Backed(setup, stores, cache) && Stored(stores, v) && CacheStep(setup, cache, v, c, after)
    ensures Backed(setup, stores, after) && Grows(cache, after)
  {
    hide MayProduce, CacheKey, Accepts, Stored;
    forall key | key in after
      ensures exists w :: Backs(setup, stores, key, after[key], w)
    {
      if key in cache {
        var w :| Backs(setup, stores, key, cache[key], w);
      } else {
        assert Backs(setup, stores, key, after[key], v);
      }
    }
  }

  lemma BackedLoad(
      setup: Setup, stores: map<Scope, StoreState>, scope: Scope, cache: map<string, Compiled>, number: Option<int>,
      r: Result<Option<Loaded>>, after: map<string, Compiled>)
    requires scope in stores && VersionsKeyed(stores[scope])
    requires Backed(setup, stores, cache) && LoadMay(setup, cache, stores[scope], number, r, after)
    ensures Backed(setup, stores, after) && Grows(cache, after)
  {
    hide CacheStep, Backed, VersionsKeyed, InStore, GetVersion;
    var st := stores[scope];
    if number.Some? && number.value > 0 && GetVersion(st, setup.policySet, number.value).Found? {
      var v := GetVersion(st, setup.policySet, number.value).value;
      var c :| CacheStep(setup, cache, v, c, after);
      FetchedVersion(setup, st, setup.policySet, number.value);
      assert Stored(stores, v);
      BackedCall(setup, stores, cache, v, c, after);
    }
  }

  lemma BackedResolve(
      setup: Setup, stores: map<Scope, StoreState>, scope: Scope, cache: map<string, Compiled>, r: Result<Runtime>,
      after: map<string, Compiled>)
    requires scope in stores && VersionsKeyed(stores[scope])
    requires Backed(setup, stores, cache) && ResolveMay(setup, cache, Some(stores[scope]), r, after)
    ensures Backed(setup, stores, after) && Grows(cache, after)
  {
    hide LoadMay, Backed, Assembled, GetRollout, RuntimeRollout, VersionsKeyed;
    var st := stores[scope];
    var fetched := GetRollout(st, setup.policySet);
    if fetched.Found? {
      var rollout := RuntimeRollout(fetched.value, setup.policySet);
      var active, middle :| LoadMay(setup, cache, st, rollout.active, active, middle)
        && if active.Err? then r.Err? && after == middle
           else exists candidate ::
             && LoadMay(setup, middle, st, rollout.candidate, candidate, after)
             && if candidate.Err? then r.Err?
                else r.Ok? && Assembled(setup, Some(st.tuples), rollout, active.value, candidate.value, r.value);
      BackedLoad(setup, stores, scope, cache, rollout.active, active, middle);
      if active.Ok? {
        var candidate :| LoadMay(setup, middle, st, rollout.candidate, candidate, after);
        BackedLoad(setup, stores, scope, middle, rollout.candidate, candidate, after);
      }
    }
  }

  /** What an operation does to the versions of its scope. */
  lemma VersionsAfter(
      setup: Setup, st: StoreState, cache: map<string, Compiled>, op: Operation, after: StoreState,
      cacheAfter: map<string, Compiled>)
    requires VersionsKeyed(st) && Does(setup, st, cache, op, after, cacheAfter)
    ensures VersionsKeyed(after) && VersionsKept(st, after)
  {
    hide RequestedSet, ResolveMay, CacheStep, CanUpsert, CleanRollout, ValidSetId, Norm, GetVersion, RolledBackTo;
  }

  lemma BackedDoes(setup: Setup, s: State, scope: Scope, op: Operation, t: State)
    requires Inv(setup, s) && Step(setup, s, Do(scope, op), t)
    ensures Backed(setup, s.stores, t.cache) && Grows(s.cache, t.cache)
  {
    hide Backed, ResolveMay, CacheStep, RollbackLands, GetVersion, VersionsKeyed, InStore, CanPublish, CanUpsert;
    match op
    case Serve(result) =>
      BackedResolve(setup, s.stores, scope, s.cache, result, t.cache);
    case Simulate(policySetId, number, policy) =>
      FetchedVersion(setup, s.stores[scope], policySetId, number);
      var v := GetVersion(s.stores[scope], policySetId, number).value;
      assert Stored(s.stores, v);
      BackedCall(setup, s.stores, s.cache, v, policy, t.cache);
    case _ =>
  }

  lemma StepKeeps(setup: Setup, s: State, e: Event, t: State)
    requires Inv(setup, s) && Step(setup, s, e, t)
    ensures Inv(setup, t) && Extends(s, t) && (e.Do? ==> Grows(s.cache, t.cache))
  {
    hide Backed, Does, VersionsKeyed, VersionsKept;
    if e.Do? {
      BackedDoes(setup, s, e.scope, e.operation, t);
      VersionsAfter(setup, s.stores[e.scope], s.cache, e.operation, t.stores[e.scope], t.cache);
      forall scope | scope in s.stores
        ensures VersionsKept(s.stores[scope], t.stores[scope])
      {
        SameKept(s.stores[scope]);
      }
      BackedMore(setup, s.stores, t.stores, t.cache);
    } else {
      EmptyBacked(setup, s);
      forall scope | scope in s.stores
        ensures VersionsKept(s.stores[scope], t.stores[scope])
      {
        SameKept(s.stores[scope]);
      }
    }
  }

  lemma SameKept(st: StoreState)
    ensures VersionsKept(st, st)
  {
  }

  lemma EmptyBacked(setup: Setup, s: State)
    ensures Backed(setup, s.stores, map[])
  {
  }

  lemma ExtendsTrans(s: State, t: State, u: State)
    requires Extends(s, t) && Extends(t, u)
    ensures Extends(s, u)
  {
  }

  lemma ExtendsSelf(s: State)
    ensures Extends(s, s)
  {
  }

  lemma {:induction false} RunInv(setup: Setup, states: seq<State>, events: seq<Event>, i: nat)
    requires Run(setup, states, events) && i <= |events|
    ensures Inv(setup, states[i])
  {
    hide Step, Backed, AllKeyed, Extends;
    if i == 0 {
      EmptyBacked(setup, states[0]);
    } else {
      RunInv(setup, states, events, i - 1);
      StepKeeps(setup, states[i - 1], events[i - 1], states[i]);
    }
  }

  /** In every run versions stay as they are, and cache entries are backed by stored versions. */
  lemma {:induction false} RunKeeps(setup: Setup, states: seq<State>, events: seq<Event>, i: nat, j: nat)
    requires Run(setup, states, events) && i <= j <= |events|
    ensures Inv(setup, states[i]) && Inv(setup, states[j]) && Extends(states[i], states[j])
    decreases j
  {
    hide Step, Inv, Extends;
    RunInv(setup, states, events, i);
    RunInv(setup, states, events, j);
    if i == j {
      ExtendsSelf(states[i]);
    } else {
      RunKeeps(setup, states, events, i, j - 1);
      StepKeeps(setup, states[j - 1], events[j - 1], states[j]);
      ExtendsTrans(states[i], states[j - 1], states[j]);
    }
  }

  /** Until a restart cached policies stay. */
  lemma {:induction false} CacheStays(setup: Setup, states: seq<State>, events: seq<Event>, i: nat, j: nat)
    requires Run(setup, states, events) && i <= j <= |events|
    requires forall k :: i <= k < j ==> events[k].Do?
    ensures Grows(states[i].cache, states[j].cache)
    decreases j
  {
    hide Step, Inv, Extends;
    if i < j {
      CacheStays(setup, states, events, i, j - 1);
      RunInv(setup, states, events, j - 1);
      StepKeeps(setup, states[j - 1], events[j - 1], states[j]);
    }
  }

  // ----- when the shared cache tells versions apart -----

  /** Main result: in a reachable state, when equal keys across scopes mean equal products,
      every hit on a stored version is faithful, in every scope. */
  lemma HitsFaithful(setup: Setup, s: State, scope: Scope)
    requires Inv(setup, s) && scope in s.stores && KeysTell(setup, StoredVersions(s.stores))
    ensures Sound(setup, s.stores[scope], s.cache)
  {
    hide CacheKey, MayProduce, VersionsKeyed, InStore;
    forall v | InStore(s.stores[scope], v)
      ensures HitFaithful(setup, s.cache, v)
    {
      assert Stored(s.stores, v);
      if CacheKey(v) in s.cache {
        var w :| Backs(setup, s.stores, CacheKey(v), s.cache[CacheKey(v)], w);
        assert v in StoredVersions(s.stores) && w in StoredVersions(s.stores);
        assert SameProducts(setup, w, v);
      }
    }
  }

  /** A single scope needs no such condition. */
  lemma OneScopeTells(setup: Setup, s: State, scope: Scope)
    requires Inv(setup, s) && s.stores.Keys == {scope}
    ensures KeysTell(setup, StoredVersions(s.stores))
  {
    hide CacheKey, MayProduce, KeysTell, Backed;
    var st := s.stores[scope];
    forall v | v in StoredVersions(s.stores)
      ensures InStore(st, v) && '|' !in v.policySetId && Normal(v.policySetId)
    {
      var other :| other in s.stores && InStore(s.stores[other], v);
      assert other == scope;
      KeyedVersion(st, v.policySetId, v.number);
      ValidSetIdNoBar(v.policySetId);
    }
    hide VersionsKeyed, Normal;
    NumbersTell(setup, StoredVersions(s.stores));
  }

  /** Fewer versions are told apart where more are. */
  lemma TellsBefore(setup: Setup, s: State, t: State)
    requires Extends(s, t) && KeysTell(setup, StoredVersions(t.stores))
    ensures KeysTell(setup, StoredVersions(s.stores))
  {
    hide CacheKey, SameProducts;
    forall v | v in StoredVersions(s.stores)
      ensures v in StoredVersions(t.stores)
    {
      var scope :| scope in s.stores && InStore(s.stores[scope], v);
      assert InStore(t.stores[scope], v);
    }
  }

  // ----- rollout rows -----

  /** A row is as the write path leaves it, and names stored versions. */
  ghost predicate RowSound(st: StoreState, id: string) {
    id in st.rollouts ==>
      var row := st.rollouts[id];
      && row.policySetId == id && CleanRollout(row) == Some(row)
      && VersionKnown(st, id, row.active) && VersionKnown(st, id, row.candidate)
  }

  ghost predicate RowsSound(st: StoreState) {
    forall id :: RowSound(st, id)
  }

  ghost predicate AllRowsSound(stores: map<Scope, StoreState>) {
    forall scope :: scope in stores ==> RowsSound(stores[scope])
  }

  lemma UpsertSound(st: StoreState, r: Rollout)
    requires RowsSound(st) && CanUpsert(st, r)
    ensures RowsSound(Upserted(st, r))
  {
    CleanRolloutTwice(r);
    hide CleanRollout;
    var t := Upserted(st, r);
    forall id
      ensures RowSound(t, id)
    {
      assert RowSound(st, id);
    }
  }

  lemma VersionsMoreSound(st: StoreState, t: StoreState)
    requires RowsSound(st) && t.rollouts == st.rollouts && st.versions.Keys <= t.versions.Keys
    ensures RowsSound(t)
  {
    hide CleanRollout;
    forall id
      ensures RowSound(t, id)
    {
      assert RowSound(st, id);
    }
  }

  lemma DoesRows(
      setup: Setup, st: StoreState, cache: map<string, Compiled>, op: Operation, after: StoreState,
      cacheAfter: map<string, Compiled>)
    requires RowsSound(st) && Does(setup, st, cache, op, after, cacheAfter)
    ensures RowsSound(after)
  {
    hide CanUpsert, Upserted, ResolveMay, CacheStep, GetVersion, CanPublish, RowsSound, RolledBackTo, AcceptsText, Norm;
    match op
    case WriteRow(row) => UpsertSound(st, row);
    case RollBack(policySetId, target, seen, true) =>
      UpsertSound(st, RolledBackTo(RequestedSet(policySetId), seen, target));
    case _ => VersionsMoreSound(st, after);
  }

  lemma StepRows(setup: Setup, s: State, e: Event, t: State)
    requires AllRowsSound(s.stores) && Step(setup, s, e, t)
    ensures AllRowsSound(t.stores)
  {
    hide Does, RowsSound;
    if e.Do? {
      DoesRows(setup, s.stores[e.scope], s.cache, e.operation, t.stores[e.scope], t.cache);
    }
  }

  /** In every run that starts without bad rows, rows stay sound in every scope. */
  lemma {:induction false} RowsStaySound(setup: Setup, states: seq<State>, events: seq<Event>, i: nat)
    requires Run(setup, states, events) && i <= |events| && AllRowsSound(states[0].stores)
    ensures AllRowsSound(states[i].stores)
  {
    hide Step, AllRowsSound, AllKeyed;
    if i > 0 {
      RowsStaySound(setup, states, events, i - 1);
      StepRows(setup, states[i - 1], events[i - 1], states[i]);
    }
  }

  lemma StoredSound(setup: Setup, st: StoreState, stored: Rollout)
    requires RowsSound(st) && GetRollout(st, setup.policySet) == Found(stored)
    ensures CleanRollout(stored) == Some(stored) && stored.policySetId == Norm(setup.policySet)
    ensures stored == st.rollouts[stored.policySetId]
    ensures VersionKnown(st, stored.policySetId, stored.active)
    ensures VersionKnown(st, stored.policySetId, stored.candidate)
  {
    hide CleanRollout;
    assert RowSound(st, Norm(setup.policySet));
  }

  /** In every such run, a stored enforce row names only versions that are stored and were
      validated. */
  lemma EnforceRowsValidated(
      setup: Setup, states: seq<State>, events: seq<Event>, i: nat, scope: Scope, stored: Rollout)
    requires Run(setup, states, events) && i <= |events| && AllRowsSound(states[0].stores)
    requires scope in states[i].stores && GetRollout(states[i].stores[scope], setup.policySet) == Found(stored)
    requires stored.mode == ENFORCE
    ensures forall n :: n in {stored.active, stored.candidate} && n.Some? ==>
        n.value in stored.validated && (stored.policySetId, n.value) in states[i].stores[scope].versions
  {
    RowsStaySound(setup, states, events, i);
    StoredSound(setup, states[i].stores[scope], stored);
    EnforceNamesValidated(stored);
    hide RowsSound, CleanRollout, Run;
  }

  // ----- what a served request is decided by -----

  /** A request served in this scope, after this event. */
  ghost predicate Served(
      setup: Setup, states: seq<State>, events: seq<Event>, k: nat, scope: Scope, rt: Runtime)
  {
    && Run(setup, states, events) && |states| == |events| + 1
    && k < |events| && events[k] == Do(scope, Serve(Ok(rt))) && scope in states[k].stores
  }

  lemma ServedStep(setup: Setup, states: seq<State>, events: seq<Event>, k: nat, scope: Scope, rt: Runtime)
    requires Served(setup, states, events, k, scope, rt)
    ensures Inv(setup, states[k])
    ensures ResolveMay(setup, states[k].cache, Some(states[k].stores[scope]), Ok(rt), states[k + 1].cache)
  {
    RunInv(setup, states, events, k);
    assert Step(setup, states[k], events[k], states[k + 1]);
    hide ResolveMay, Inv, AllKeyed;
  }

  /** Main result: in any reachable state, when equal keys mean equal products, the engine that
      decides a request runs the policy its scope's row intends: a product of the stored
      candidate exactly when the mode is enforce, the request is targeted and the candidate is
      stored, compiles and is validated; otherwise a product of the stored active version, or
      the built-in policy when that version cannot be used. */
  lemma ServedExactly(
      setup: Setup, states: seq<State>, events: seq<Event>, k: nat, scope: Scope, rt: Runtime, stored: Rollout,
      input: Input, hash: string -> Bucket)
    requires Served(setup, states, events, k, scope, rt)
    requires KeysTell(setup, StoredVersions(states[k].stores))
    requires GetRollout(states[k].stores[scope], setup.policySet) == Found(stored)
    ensures var st, choice := states[k].stores[scope], Choose(rt, input, hash);
        && (choice.fromCandidate <==> CandidateDue(setup, st, stored, input, hash))
        && (exists c :: Intended(setup, st, stored, choice.fromCandidate, c) && RunsPolicy(st, c, choice.engine))
        && choice.version ==
           if choice.fromCandidate then stored.candidate.value
           else if Usable(setup, st, stored.active) then stored.active.value
           else 0
  {
    hide Run, Inv, KeysTell, Sound, ResolveMay, ActiveServed, CandidateServed, RuntimeCached, CandidateDue, Intended;
    hide GetRollout, Choose, RuntimeRollout, RunsPolicy, Usable, Grows;
    ServedStep(setup, states, events, k, scope, rt);
    HitsFaithful(setup, states[k], scope);
    ResolvedExactly(setup, states[k].stores[scope], states[k].cache, stored, rt, states[k + 1].cache);
    ChosenExactly(setup, states[k].stores[scope], stored, rt, input, hash);
  }

  /** Without a row the built-in policy decides every request, and nothing is shadowed. */
  lemma ServedWithoutRow(
      setup: Setup, states: seq<State>, events: seq<Event>, k: nat, scope: Scope, rt: Runtime,
      input: Input, hash: string -> Bucket)
    requires Served(setup, states, events, k, scope, rt)
    requires GetRollout(states[k].stores[scope], setup.policySet) == Missing
    ensures Choose(rt, input, hash) == Choice(rt.engine, 0, false) && !ShadowEvaluates(rt, input, hash)
    ensures RunsPolicy(states[k].stores[scope], setup.fallback, rt.engine)
  {
    hide Run, Inv, ResolveMay, GetRollout, RunsPolicy, Targets;
    ServedStep(setup, states, events, k, scope, rt);
    ResolvedWithoutRow(setup, states[k].stores[scope], states[k].cache, rt, states[k + 1].cache);
  }

  /** Main result: so the request is allowed only if the intended policy authorizes it, and
      exactly then when no relationship chain is hidden. */
  lemma ServedDecides(
      setup: Setup, states: seq<State>, events: seq<Event>, k: nat, scope: Scope, rt: Runtime, stored: Rollout,
      input: Input, hash: string -> Bucket, allowed: bool, stage: Stage)
    returns (c: Compiled)
    requires Served(setup, states, events, k, scope, rt)
    requires KeysTell(setup, StoredVersions(states[k].stores))
    requires GetRollout(states[k].stores[scope], setup.policySet) == Found(stored)
    requires GoodSetup(setup) && Walk.ValidStore(states[k].stores[scope].tuples)
    requires MayDecide(Choose(rt, input, hash).engine, input, allowed, stage)
    ensures Intended(setup, states[k].stores[scope], stored, Choose(rt, input, hash).fromCandidate, c)
    ensures var tuples := Some(states[k].stores[scope].tuples);
        && (allowed ==> Meaning.Authorizes(tuples, c, input))
        && (Meaning.Visible(tuples, c, input) ==> (allowed <==> Meaning.Authorizes(tuples, c, input)))
  {
    hide Run, KeysTell, CandidateDue, PolicyOf, GetRollout, Choose, RunsPolicy, Usable, MayDecide, WellFormed;
    hide GoodSetup, Walk.ValidStore, Meaning.Authorizes, Meaning.Visible;
    var st, choice := states[k].stores[scope], Choose(rt, input, hash);
    ServedExactly(setup, states, events, k, scope, rt, stored, input, hash);
    c :| Intended(setup, st, stored, choice.fromCandidate, c) && RunsPolicy(st, c, choice.engine);
    PolicyWellFormed(setup, st, if choice.fromCandidate then stored.candidate else stored.active, c);
    RunsDecides(st, c, choice.engine, input, allowed, stage);
  }

  /** Main result: in every run whose initial rows are sound, a request served under the
      enforce mode is decided by a product of a validated version, or by the built-in policy
      when the active version does not compile, whether or not it is targeted. */
  lemma EnforceDecidesValidated(
      setup: Setup, states: seq<State>, events: seq<Event>, k: nat, scope: Scope, rt: Runtime, stored: Rollout,
      input: Input, hash: string -> Bucket)
    requires Served(setup, states, events, k, scope, rt)
    requires KeysTell(setup, StoredVersions(states[k].stores)) && AllRowsSound(states[0].stores)
    requires GetRollout(states[k].stores[scope], setup.policySet) == Found(stored) && stored.mode == ENFORCE
    ensures var st, choice := states[k].stores[scope], Choose(rt, input, hash);
        if choice.version == 0 then RunsPolicy(st, setup.fallback, choice.engine)
        else
          && choice.version in stored.validated && (Norm(setup.policySet), choice.version) in st.versions
          && exists c :: MayProduce(setup, VersionOf(setup, st, choice.version), c) && RunsPolicy(st, c, choice.engine)
  {
    hide KeysTell, CandidateDue, GetRollout, Choose, RunsPolicy, AllRowsSound, MayProduce, Accepts, Run, Norm;
    var st, choice := states[k].stores[scope], Choose(rt, input, hash);
    ServedExactly(setup, states, events, k, scope, rt, stored, input, hash);
    EnforceRowsValidated(setup, states, events, k, scope, stored);
    var c :| Intended(setup, st, stored, choice.fromCandidate, c) && RunsPolicy(st, c, choice.engine);
    assert stored.active in {stored.active, stored.candidate} && stored.candidate in {stored.active, stored.candidate};
    UsablePositive(setup, st, stored.active);
    UsablePositive(setup, st, stored.candidate);
  }

  /** Main result: the version a rollback would report as previously effective decides a
      targeted request exactly when it can be used at all. */
  lemma EffectiveVersionExact(
      setup: Setup, states: seq<State>, events: seq<Event>, k: nat, scope: Scope, rt: Runtime, stored: Rollout,
      input: Input, hash: string -> Bucket)
    requires Served(setup, states, events, k, scope, rt)
    requires KeysTell(setup, StoredVersions(states[k].stores)) && AllRowsSound(states[0].stores)
    requires GetRollout(states[k].stores[scope], setup.policySet) == Found(stored)
    requires Targets(RuntimeRollout(stored, setup.policySet), input, hash) && EffectiveVersion(stored).Some?
    ensures Choose(rt, input, hash).version == EffectiveVersion(stored).value <==>
        Usable(setup, states[k].stores[scope], EffectiveVersion(stored))
  {
    hide KeysTell, GetRollout, Choose, AllRowsSound, MayProduce, Accepts, Run, Intended, Targets, RuntimeRollout;
    var st := states[k].stores[scope];
    ServedExactly(setup, states, events, k, scope, rt, stored, input, hash);
    RowsStaySound(setup, states, events, k);
    RowOf(setup, states[k], scope, stored);
    hide Norm, CleanRollout;
  }

  lemma RowOf(setup: Setup, s: State, scope: Scope, stored: Rollout)
    requires AllRowsSound(s.stores) && scope in s.stores
    requires GetRollout(s.stores[scope], setup.policySet) == Found(stored)
    ensures Norm(stored.mode) == stored.mode
    ensures stored.active.Some? ==> stored.active.value > 0
    ensures stored.candidate.Some? ==> stored.candidate.value > 0
  {
    StoredSound(setup, s.stores[scope], stored);
    CleanFacts(stored);
    hide RowsSound, CleanRollout, GetRollout, Norm;
  }

  lemma CleanModeNormal(mode: string)
    ensures Norm(CleanMode(mode)) == CleanMode(mode)
  {
    LettersNormal(DISABLED);
    NormIdempotent(mode);
    hide Norm;
  }

  lemma CleanFacts(row: Rollout)
    requires CleanRollout(row) == Some(row)
    ensures Norm(row.mode) == row.mode
    ensures row.active.Some? ==> row.active.value > 0
    ensures row.candidate.Some? ==> row.candidate.value > 0
  {
    CleanModeNormal(row.mode);
    hide Sort, Dedupe, CanonicalVersions, Norm, ValidSetId, CleanMode, KnownMode;
  }

  // ----- after a rollback -----

  /** The rollout row of the resolver's policy set points at `target` alone. */
  ghost predicate PointsAt(setup: Setup, st: StoreState, target: int) {
    var id := Norm(setup.policySet);
    && id in st.rollouts
    && st.rollouts[id].active == Some(target) && st.rollouts[id].candidate == None
    && st.rollouts[id].mode == DISABLED
    && Usable(setup, st, Some(target))
  }

  /** The event replaces the scope's rollout row of the resolver's policy set. */
  ghost predicate ReplacesRow(setup: Setup, scope: Scope, e: Event) {
    e.Do? && e.scope == scope &&
    match e.operation
    case WriteRow(row) => Norm(row.policySetId) == Norm(setup.policySet)
    case RollBack(policySetId, _, _, landed) =>
      landed && Norm(RequestedSet(policySetId)) == Norm(setup.policySet)
    case _ => false
  }

  lemma RollbackPoints(
      setup: Setup, st: StoreState, policySetId: string, target: int, seen: Rollout, after: StoreState)
    requires RollbackLands(st, setup.decode, policySetId, target, seen, after)
    requires Norm(RequestedSet(policySetId)) == Norm(setup.policySet)
    ensures PointsAt(setup, after, target) && after.versions == st.versions
  {
    var row := LandingLeaves(st, setup.decode, policySetId, target, seen, after);
    hide AcceptsText, Norm, RequestedSet, CanUpsert, Upserted;
  }

  lemma UsableStays(setup: Setup, st: StoreState, after: StoreState, number: Option<int>)
    requires VersionsKept(st, after) && Usable(setup, st, number)
    ensures Usable(setup, after, number) && VersionOf(setup, after, number.value) == VersionOf(setup, st, number.value)
  {
    hide Accepts, Norm;
  }

  /** Which row an operation may change. */
  lemma RowsAfter(
      setup: Setup, st: StoreState, cache: map<string, Compiled>, scope: Scope, op: Operation, after: StoreState,
      cacheAfter: map<string, Compiled>)
    requires Does(setup, st, cache, op, after, cacheAfter) && !ReplacesRow(setup, scope, Do(scope, op))
    requires Norm(setup.policySet) in st.rollouts
    ensures Norm(setup.policySet) in after.rollouts
    ensures after.rollouts[Norm(setup.policySet)] == st.rollouts[Norm(setup.policySet)]
  {
    match op
    case RollBack(policySetId, target, seen, landed) =>
      hide RollbackLands, Norm, RequestedSet;
      if landed {
        LandedElsewhere(st, setup.decode, policySetId, target, seen, after, Norm(setup.policySet));
      }
    case WriteRow(row) =>
      WrittenId(row);
      hide CleanRollout, Norm;
    case _ =>
      hide ResolveMay, CacheStep, GetVersion, CanPublish, Norm;
  }

  lemma LandedElsewhere(
      st: StoreState, decode: string -> Option<Bundle>, policySetId: string, target: int, seen: Rollout,
      after: StoreState, id: string)
    requires RollbackLands(st, decode, policySetId, target, seen, after)
    requires id in st.rollouts && id != Norm(RequestedSet(policySetId))
    ensures id in after.rollouts && after.rollouts[id] == st.rollouts[id]
  {
    hide RollbackLands, Norm, RequestedSet;
    var row := LandingLeaves(st, decode, policySetId, target, seen, after);
  }

  lemma WrittenId(row: Rollout)
    requires CleanRollout(row).Some?
    ensures CleanRollout(row).value.policySetId == Norm(row.policySetId)
  {
    hide Sort, Dedupe, CanonicalVersions, Norm, ValidSetId, CleanMode;
  }

  lemma PointStays(setup: Setup, s: State, e: Event, t: State, scope: Scope, target: int)
    requires Inv(setup, s) && Step(setup, s, e, t) && scope in s.stores
    requires !ReplacesRow(setup, scope, e) && PointsAt(setup, s.stores[scope], target)
    ensures scope in t.stores && PointsAt(setup, t.stores[scope], target)
  {
    hide Backed, Does, VersionsKeyed, Usable, ReplacesRow, Norm, Grows;
    StepKeeps(setup, s, e, t);
    UsableStays(setup, s.stores[scope], t.stores[scope], Some(target));
    if e.Do? && e.scope == scope {
      RowsAfter(setup, s.stores[scope], s.cache, scope, e.operation, t.stores[scope], t.cache);
    }
  }

  lemma {:induction false} RowStays(
      setup: Setup, states: seq<State>, events: seq<Event>, scope: Scope, i: nat, k: nat, target: int)
    requires Run(setup, states, events) && i <= k <= |events|
    requires scope in states[i].stores && PointsAt(setup, states[i].stores[scope], target)
    requires forall j :: i <= j < k ==> !ReplacesRow(setup, scope, events[j])
    ensures scope in states[k].stores && PointsAt(setup, states[k].stores[scope], target)
    decreases k
  {
    hide Step, Inv, PointsAt, ReplacesRow, AllKeyed;
    if i < k {
      RowStays(setup, states, events, scope, i, k - 1, target);
      RunInv(setup, states, events, k - 1);
      PointStays(setup, states[k - 1], events[k - 1], states[k], scope, target);
    }
  }

  /** A row that points at a version intends its products, and nothing is shadowed. */
  lemma PointedRow(setup: Setup, st: StoreState, target: int, stored: Rollout)
    requires VersionsKeyed(st) && PointsAt(setup, st, target)
    requires GetRollout(st, setup.policySet) == Found(stored)
    ensures stored.active == Some(target) && stored.candidate == None && stored.mode == DISABLED
  {
    hide Usable, VersionsKeyed, Norm;
  }

  /** A successful rollback in this scope whose row nothing replaces before event `k`. */
  ghost predicate RolledBackUntil(
      setup: Setup, states: seq<State>, events: seq<Event>, scope: Scope, i: nat, k: nat)
  {
    && i < k < |events| && events[i].Do? && events[i].scope == scope && events[i].operation.RollBack?
    && events[i].operation.landed
    && Norm(RequestedSet(events[i].operation.policySetId)) == Norm(setup.policySet)
    && forall j :: i < j < k ==> !ReplacesRow(setup, scope, events[j])
  }

  lemma RolledBackPoints(setup: Setup, states: seq<State>, events: seq<Event>, scope: Scope, i: nat, k: nat)
    requires Run(setup, states, events) && RolledBackUntil(setup, states, events, scope, i, k)
    ensures scope in states[i].stores && scope in states[k].stores
    ensures var target := events[i].operation.target;
        && PointsAt(setup, states[k].stores[scope], target)
        && Usable(setup, states[i].stores[scope], Some(target))
        && VersionOf(setup, states[k].stores[scope], target) == VersionOf(setup, states[i].stores[scope], target)
  {
    hide PointsAt, VersionsKeyed, RollbackLands, Usable, ReplacesRow, Norm, RequestedSet, Backed;
    var target, setId := events[i].operation.target, events[i].operation.policySetId;
    RunKeeps(setup, states, events, i, k);
    assert Step(setup, states[i], events[i], states[i + 1]);
    var st, after := states[i].stores[scope], states[i + 1].stores[scope];
    RollbackPoints(setup, st, setId, target, events[i].operation.seen, after);
    PointUsable(setup, st, after, target);
    RowStays(setup, states, events, scope, i + 1, k, target);
    UsableStays(setup, st, states[k].stores[scope], Some(target));
  }

  lemma PointUsable(setup: Setup, st: StoreState, after: StoreState, target: int)
    requires PointsAt(setup, after, target) && after.versions == st.versions
    ensures Usable(setup, st, Some(target))
  {
    hide Accepts, Norm;
  }

  /** Main result: from a successful rollback until the row is next replaced, every request
      its scope is served at all runs exactly a product of the target version, whatever mode,
      canary, allowlists or candidate preceded it, and across restarts. */
  lemma RollbackGoverns(
      setup: Setup, states: seq<State>, events: seq<Event>, scope: Scope, i: nat, k: nat, rt: Runtime,
      input: Input, hash: string -> Bucket)
    requires Served(setup, states, events, k, scope, rt) && RolledBackUntil(setup, states, events, scope, i, k)
    requires scope in states[i].stores
    requires KeysTell(setup, StoredVersions(states[k].stores))
    ensures var target, st := events[i].operation.target, states[k].stores[scope];
        && Choose(rt, input, hash) == Choice(rt.engine, target, false)
        && !ShadowEvaluates(rt, input, hash)
        && Usable(setup, states[i].stores[scope], Some(target))
        && exists c ::
             && MayProduce(setup, VersionOf(setup, states[i].stores[scope], target), c)
             && RunsPolicy(st, c, rt.engine) && rt.registry == c.routes
  {
    hide KeysTell, MayProduce, Accepts, RunsPolicy, ResolveMay, Norm, ReplacesRow, Backed, VersionsKeyed;
    hide Sound, Grows, RuntimeCached, Targets, Choose;
    var target, st := events[i].operation.target, states[k].stores[scope];
    RolledBackPoints(setup, states, events, scope, i, k);
    ServedStep(setup, states, events, k, scope, rt);
    HitsFaithful(setup, states[k], scope);
    var stored := RowFound(setup, states, events, k, scope, rt, target);
    ResolvedExactly(setup, st, states[k].cache, stored, rt, states[k + 1].cache);
    PointedRow(setup, st, target, stored);
    DisabledRuntime(setup, st, stored, rt, input, hash);
  }

  lemma RowFound(
      setup: Setup, states: seq<State>, events: seq<Event>, k: nat, scope: Scope, rt: Runtime, target: int)
    returns (stored: Rollout)
    requires Served(setup, states, events, k, scope, rt)
    requires PointsAt(setup, states[k].stores[scope], target)
    requires ResolveMay(setup, states[k].cache, Some(states[k].stores[scope]), Ok(rt), states[k + 1].cache)
    ensures GetRollout(states[k].stores[scope], setup.policySet) == Found(stored)
  {
    hide Usable, ValidSetId, Norm, LoadMay, Assembled, Run;
    stored := GetRollout(states[k].stores[scope], setup.policySet).value;
  }

  /** A disabled row serves its active version to everyone. */
  lemma DisabledRuntime(
      setup: Setup, st: StoreState, stored: Rollout, rt: Runtime, input: Input, hash: string -> Bucket)
    requires rt.rollout == RuntimeRollout(stored, setup.policySet) && stored.mode == DISABLED
    ensures Choose(rt, input, hash) == Choice(rt.engine, rt.version, false) && !ShadowEvaluates(rt, input, hash)
  {
    KnownModeNormal(DISABLED);
    hide RuntimeMode, Targets, Sort, Dedupe, CanonicalVersions, Norm, RuntimeCanary;
  }

  /** In particular such a request is allowed only if the target's policy authorizes it,
      and exactly then when no relationship chain is hidden. */
  lemma RollbackDecides(
      setup: Setup, states: seq<State>, events: seq<Event>, scope: Scope, i: nat, k: nat, rt: Runtime,
      input: Input, hash: string -> Bucket, allowed: bool, stage: Stage)
    returns (c: Compiled)
    requires Served(setup, states, events, k, scope, rt) && RolledBackUntil(setup, states, events, scope, i, k)
    requires scope in states[i].stores
    requires KeysTell(setup, StoredVersions(states[k].stores))
    requires GoodSetup(setup) && Walk.ValidStore(states[k].stores[scope].tuples)
    requires MayDecide(Choose(rt, input, hash).engine, input, allowed, stage)
    ensures Usable(setup, states[i].stores[scope], Some(events[i].operation.target))
    ensures MayProduce(setup, VersionOf(setup, states[i].stores[scope], events[i].operation.target), c)
    ensures var tuples := Some(states[k].stores[scope].tuples);
        && (allowed ==> Meaning.Authorizes(tuples, c, input))
        && (Meaning.Visible(tuples, c, input) ==> (allowed <==> Meaning.Authorizes(tuples, c, input)))
  {
    hide Run, ReplacesRow, KeysTell, MayProduce, Accepts, RunsPolicy, MayDecide, WellFormed, GoodSetup, Choose;
    hide Walk.ValidStore, Meaning.Authorizes, Meaning.Visible, ShadowEvaluates, Norm;
    RollbackGoverns(setup, states, events, scope, i, k, rt, input, hash);
    var target := events[i].operation.target;
    var v := VersionOf(setup, states[i].stores[scope], target);
    c :| MayProduce(setup, v, c) && RunsPolicy(states[k].stores[scope], c, rt.engine) && rt.registry == c.routes;
    ProducesWellFormed(setup, v, c);
    RunsDecides(states[k].stores[scope], c, rt.engine, input, allowed, stage);
  }

  // ----- simulation -----

  /** What the runtime serves as version `n`, actively or as candidate, is this policy. */
  ghost predicate ServesAs(st: StoreState, rt: Runtime, n: int, c: Compiled) {
    && (rt.version == n ==> RunsPolicy(st, c, rt.engine))
    && (rt.candidate.Some? && rt.candidate.value.version == n ==> RunsPolicy(st, c, rt.candidate.value.engine))
  }

  /** A version of the resolver's set was simulated in this scope with this policy. */
  ghost predicate Simulated(
      setup: Setup, states: seq<State>, events: seq<Event>, i: nat, scope: Scope, n: int, c: Compiled)
  {
    && Run(setup, states, events) && |states| == |events| + 1
    && i < |events| && events[i].Do? && events[i].scope == scope && scope in states[i].stores
    && events[i].operation.Simulate? && events[i].operation.policy == Some(c) && events[i].operation.number == n
    && Norm(events[i].operation.policySetId) == Norm(setup.policySet)
  }

  lemma SimulatedIsCached(
      setup: Setup, states: seq<State>, events: seq<Event>, i: nat, scope: Scope, n: int, c: Compiled)
    requires Simulated(setup, states, events, i, scope, n, c)
    ensures n > 0
    ensures (Norm(setup.policySet), n) in states[i].stores[scope].versions
    ensures var v := VersionOf(setup, states[i].stores[scope], n);
        CacheKey(v) in states[i + 1].cache && states[i + 1].cache[CacheKey(v)] == c
  {
    hide CacheKey, MayProduce, Accepts, Norm, GetVersion, Backed, VersionsKeyed, InStore, RollbackLands, ResolveMay;
    RunInv(setup, states, events, i);
    assert Step(setup, states[i], events[i], states[i + 1]);
    FetchedVersion(setup, states[i].stores[scope], events[i].operation.policySetId, n);
  }

  /** No server restarts between the two events. */
  ghost predicate NoRestart(events: seq<Event>, i: nat, k: nat) {
    forall j :: (i < j < k || k < j < i) && j < |events| ==> events[j].Do?
  }

  lemma ServedIsCached(
      setup: Setup, states: seq<State>, events: seq<Event>, k: nat, scope: Scope, rt: Runtime)
    requires Served(setup, states, events, k, scope, rt)
    requires KeysTell(setup, StoredVersions(states[k].stores))
    ensures RuntimeCached(setup, states[k].stores[scope], states[k + 1].cache, rt)
  {
    hide KeysTell, Sound, ResolveMay, ActiveServed, CandidateServed, RuntimeCached, Grows, GetRollout, Run, Inv;
    ServedStep(setup, states, events, k, scope, rt);
    HitsFaithful(setup, states[k], scope);
    var st, fetched := states[k].stores[scope], GetRollout(states[k].stores[scope], setup.policySet);
    RowReadable(setup, st, states[k].cache, rt, states[k + 1].cache);
    if fetched.Found? {
      ResolvedExactly(setup, st, states[k].cache, fetched.value, rt, states[k + 1].cache);
    } else {
      ResolvedWithoutRow(setup, st, states[k].cache, rt, states[k + 1].cache);
      NothingCached(setup, st, states[k + 1].cache, rt);
    }
  }

  lemma RowReadable(
      setup: Setup, st: StoreState, cache: map<string, Compiled>, rt: Runtime, after: map<string, Compiled>)
    requires ResolveMay(setup, cache, Some(st), Ok(rt), after)
    ensures !GetRollout(st, setup.policySet).Unavailable?
  {
    hide GetRollout, LoadMay, Assembled;
  }

  lemma NothingCached(setup: Setup, st: StoreState, cache: map<string, Compiled>, rt: Runtime)
    requires rt.version == 0 && rt.candidate == None
    ensures RuntimeCached(setup, st, cache, rt)
  {
  }

  /** Main result: simulating a version and serving it, in either order and with anything but a
      restart in between, use one and the same policy, whether the version is served as the
      active one or as the candidate. */
  lemma SimulationAgrees(
      setup: Setup, states: seq<State>, events: seq<Event>, i: nat, k: nat, scope: Scope, n: int, c: Compiled,
      rt: Runtime)
    requires Simulated(setup, states, events, i, scope, n, c) && Served(setup, states, events, k, scope, rt)
    requires NoRestart(events, i, k)
    requires KeysTell(setup, StoredVersions(states[k].stores))
    ensures ServesAs(states[k].stores[scope], rt, n, c)
  {
    hide Run, CacheKey, KeysTell, RunsPolicy, Norm;
    SimulatedIsCached(setup, states, events, i, scope, n, c);
    ServedIsCached(setup, states, events, k, scope, rt);
    var m := if i < k then k + 1 else i + 1;
    CacheStays(setup, states, events, i + 1, m);
    CacheStays(setup, states, events, k + 1, m);
    SameVersion(setup, states, events, i, k, scope, n);
  }

  lemma SameVersion(
      setup: Setup, states: seq<State>, events: seq<Event>, i: nat, k: nat, scope: Scope, n: int)
    requires Run(setup, states, events) && i < |events| && k < |events|
    requires scope in states[i].stores && scope in states[k].stores
    requires (Norm(setup.policySet), n) in states[i].stores[scope].versions
    ensures (Norm(setup.policySet), n) in states[k].stores[scope].versions ==>
        VersionOf(setup, states[k].stores[scope], n) == VersionOf(setup, states[i].stores[scope], n)
  {
    hide Step, Inv, Norm, AllKeyed;
    if i <= k {
      RunKeeps(setup, states, events, i, k);
    } else {
      RunKeeps(setup, states, events, k, i);
    }
  }

  /** A product the cache holds under a stored version's key is a product of that version. */
  lemma CachedProduct(setup: Setup, s: State, scope: Scope, v: Version)
    requires Inv(setup, s) && scope in s.stores && InStore(s.stores[scope], v) && CacheKey(v) in s.cache
    requires KeysTell(setup, StoredVersions(s.stores))
    ensures MayProduce(setup, v, s.cache[CacheKey(v)])
  {
    hide Inv, KeysTell, CacheKey, MayProduce, InStore;
    HitsFaithful(setup, s, scope);
    assert HitFaithful(setup, s.cache, v);
  }

  /** Main result: across restarts too, when the version's bundle has no clashing keys. */
  lemma SimulationAgreesAcrossRestarts(
      setup: Setup, states: seq<State>, events: seq<Event>, i: nat, k: nat, scope: Scope, n: int, c: Compiled,
      rt: Runtime)
    requires Simulated(setup, states, events, i, scope, n, c) && Served(setup, states, events, k, scope, rt)
    requires KeysTell(setup, StoredVersions(states[i + 1].stores))
    requires KeysTell(setup, StoredVersions(states[k + 1].stores))
    requires (Norm(setup.policySet), n) in states[i].stores[scope].versions
    requires var bundle := setup.decode(Trim(VersionOf(setup, states[i].stores[scope], n).bundle));
        bundle.Some? && NoClashes(bundle.value)
    ensures ServesAs(states[k].stores[scope], rt, n, c)
  {
    hide Run, CacheKey, KeysTell, RunsPolicy, NoClashes, MayProduce, Norm, Trim;
    var v := VersionOf(setup, states[i].stores[scope], n);
    SimulatedIsCached(setup, states, events, i, scope, n, c);
    StillStored(setup, states, events, i, scope, n);
    CachedProduct(setup, states[i + 1], scope, v);
    TellsBefore(setup, states[k], states[k + 1]) by {
      RunKeeps(setup, states, events, k, k + 1);
    }
    ServedIsCached(setup, states, events, k, scope, rt);
    SameVersion(setup, states, events, i, k, scope, n);
    if (Norm(setup.policySet), n) in states[k].stores[scope].versions {
      StillStored(setup, states, events, k, scope, n);
      if CacheKey(v) in states[k + 1].cache {
        CachedProduct(setup, states[k + 1], scope, v);
        ProducesOne(setup, v, c, states[k + 1].cache[CacheKey(v)]);
      }
    }
  }

  lemma StillStored(setup: Setup, states: seq<State>, events: seq<Event>, i: nat, scope: Scope, n: int)
    requires Run(setup, states, events) && i < |events| && scope in states[i].stores
    requires (Norm(setup.policySet), n) in states[i].stores[scope].versions
    ensures scope in states[i + 1].stores && Inv(setup, states[i + 1])
    ensures InStore(states[i + 1].stores[scope], VersionOf(setup, states[i].stores[scope], n))
  {
    hide Step, Backed, Norm, VersionsKeyed;
    RunKeeps(setup, states, events, i, i + 1);
    KeyedVersion(states[i].stores[scope], Norm(setup.policySet), n);
  }

  // ----- runs with rollbacks exist -----

  /** A scope that holds one version, nothing else. */
  function Holding(v: Version, tuples: Walk.Store): StoreState {
    StoreState(map[(v.policySetId, v.number) := v], map[], {v.policySetId}, tuples, {})
  }

  ghost predicate FirstOfSet(setup: Setup, v: Version) {
    && ValidSetId(v.policySetId) && Normal(v.policySetId) && v.number == 1
    && v.policySetId == Norm(setup.policySet) && AcceptsText(v.bundle, setup.decode)
  }

  /** The scope after rolling back to its only version. */
  ghost function RolledBackTo1(setup: Setup, v: Version, tuples: Walk.Store): StoreState {
    RollbackOutcome(Holding(v, tuples), setup.decode, v.policySetId, 1).1
  }

  ghost function RollBackOf(v: Version, tuples: Walk.Store): Operation {
    RollBack(v.policySetId, 1, RowSeen(Holding(v, tuples), v.policySetId), true)
  }

  lemma SetIdKept(id: string)
    requires ValidSetId(id) && Normal(id)
    ensures RequestedSet(id) == id && Norm(id) == id
  {
    NormalFacts(id);
    hide Norm, Trim;
  }

  lemma HoldingFacts(setup: Setup, v: Version, tuples: Walk.Store)
    requires FirstOfSet(setup, v)
    ensures VersionsKeyed(Holding(v, tuples)) && InStore(Holding(v, tuples), v)
    ensures RollbackLands(
      Holding(v, tuples), setup.decode, v.policySetId, 1, RowSeen(Holding(v, tuples), v.policySetId),
      RolledBackTo1(setup, v, tuples))
    ensures RolledBackTo1(setup, v, tuples).versions == Holding(v, tuples).versions
  {
    hide RollbackOutcome, AcceptsText, RowSeen;
    SetIdKept(v.policySetId);
    hide ValidSetId, RequestedSet, Norm, Trim;
    var st := Holding(v, tuples);
    assert GetVersion(st, v.policySetId, 1) == Found(v);
    assert GetRollout(st, v.policySetId) == Missing;
    RollbackSucceedsExactly(st, setup.decode, v.policySetId, 1);
    AloneLands(st, setup.decode, v.policySetId, 1);
    hide RolledBackTo;
  }

  lemma HoldingRow(setup: Setup, v: Version, tuples: Walk.Store) returns (row: Rollout)
    requires FirstOfSet(setup, v)
    ensures var st := RolledBackTo1(setup, v, tuples);
        && GetVersion(st, setup.policySet, 1) == Found(v) && GetRollout(st, setup.policySet) == Found(row)
        && row.active == Some(1) && row.candidate == None
  {
    hide AcceptsText, RollbackOutcome, VersionsKeyed, InStore;
    HoldingFacts(setup, v, tuples);
    SetIdKept(v.policySetId);
    hide ValidSetId, RequestedSet, Norm;
    hide RollbackLands, RowSeen;
    row := LandingLeaves(
      Holding(v, tuples), setup.decode, v.policySetId, 1, RowSeen(Holding(v, tuples), v.policySetId),
      RolledBackTo1(setup, v, tuples));
  }

  lemma CachedOrFresh(
      setup: Setup, st: StoreState, cache: map<string, Compiled>, v: Version, c: Compiled,
      after: map<string, Compiled>)
    requires GetVersion(st, setup.policySet, 1) == Found(v) && v.number == 1
    requires CacheStep(setup, cache, v, Some(c), after)
    ensures LoadMay(setup, cache, st, Some(1), Ok(Some(Loaded(1, c))), after)
  {
    hide CacheStep, GetVersion;
  }

  /** After that rollback, whatever the cache holds or computes for the version's key is served. */
  lemma ServedAfterRollback(
      setup: Setup, v: Version, tuples: Walk.Store, cache: map<string, Compiled>, c: Compiled,
      after: map<string, Compiled>)
    returns (rt: Runtime)
    requires FirstOfSet(setup, v) && WellFormed(c) && CacheStep(setup, cache, v, Some(c), after)
    ensures var st := RolledBackTo1(setup, v, tuples);
        && ResolveMay(setup, cache, Some(st), Ok(rt), after)
        && rt.version == 1 && rt.registry == c.routes && RunsPolicy(st, c, rt.engine)
  {
    hide RolledBackTo1, CacheStep, WellFormed, RunsPolicy, GetRollout, GetVersion, LoadMay, ResolveMay;
    var st := RolledBackTo1(setup, v, tuples);
    var row := HoldingRow(setup, v, tuples);
    CachedOrFresh(setup, st, cache, v, c, after);
    rt := ServeExists(setup, st, cache, row, 1, c, after);
  }

  ghost function AfterRollback(setup: Setup, s: State, scope: Scope, v: Version, tuples: Walk.Store): State {
    s.(stores := s.stores[scope := RolledBackTo1(setup, v, tuples)])
  }

  lemma LandStep(
      setup: Setup, s: State, scope: Scope, id: string, target: int, seen: Rollout, after: StoreState)
    requires scope in s.stores && RollbackLands(s.stores[scope], setup.decode, id, target, seen, after)
    ensures Step(setup, s, Do(scope, RollBack(id, target, seen, true)), s.(stores := s.stores[scope := after]))
  {
    hide RollbackLands;
    var t := s.(stores := s.stores[scope := after]);
    assert t.stores == s.stores[scope := t.stores[scope]];
  }

  lemma RollBackStep(setup: Setup, s: State, scope: Scope, v: Version, tuples: Walk.Store)
    requires FirstOfSet(setup, v) && scope in s.stores && s.stores[scope] == Holding(v, tuples)
    ensures Step(setup, s, Do(scope, RollBackOf(v, tuples)), AfterRollback(setup, s, scope, v, tuples))
  {
    hide RollbackLands, RowSeen, RolledBackTo1, Holding, Step, FirstOfSet, VersionsKeyed, InStore;
    HoldingFacts(setup, v, tuples);
    var seen := RowSeen(Holding(v, tuples), v.policySetId);
    LandStep(setup, s, scope, v.policySetId, 1, seen, RolledBackTo1(setup, v, tuples));
  }

  lemma ServeStep(setup: Setup, s: State, scope: Scope, rt: Runtime, cacheAfter: map<string, Compiled>)
    requires scope in s.stores && ResolveMay(setup, s.cache, Some(s.stores[scope]), Ok(rt), cacheAfter)
    ensures Step(setup, s, Do(scope, Serve(Ok(rt))), s.(cache := cacheAfter))
  {
    hide RollbackOutcome, ResolveMay, CanUpsert, Upserted, CanPublish, CacheStep, GetVersion;
    assert s.stores == s.stores[scope := s.stores[scope]];
  }

  lemma SimulateStep(
      setup: Setup, s: State, scope: Scope, v: Version, tuples: Walk.Store, c: Compiled,
      cacheAfter: map<string, Compiled>)
    requires FirstOfSet(setup, v) && scope in s.stores && s.stores[scope] == Holding(v, tuples)
    requires CacheStep(setup, s.cache, v, Some(c), cacheAfter)
    ensures Step(setup, s, Do(scope, Simulate(v.policySetId, 1, Some(c))), s.(cache := cacheAfter))
  {
    hide RollbackOutcome, ResolveMay, CanUpsert, Upserted, CanPublish, CacheStep, AcceptsText;
    SetIdKept(v.policySetId);
    hide ValidSetId, Norm, RequestedSet, Trim;
    assert GetVersion(s.stores[scope], v.policySetId, 1) == Found(v);
    assert s.stores == s.stores[scope := s.stores[scope]];
  }

  lemma FirstProduct(setup: Setup, v: Version, c: Compiled)
    requires GoodSetup(setup) && MayProduce(setup, v, c)
    ensures WellFormed(c) && AcceptsText(v.bundle, setup.decode)
    ensures CacheStep(setup, map[], v, Some(c), map[CacheKey(v) := c])
  {
    hide GoodSetup, WellFormed, CacheKey, AcceptsText;
    ProducesWellFormed(setup, v, c);
    hide MayProduce;
    ProducedAccepts(setup, v, c);
  }

  /** Runs with a successful rollback and a request it governs exist, for every text that
      compiles. */
  lemma RollbackReachable(setup: Setup, scope: Scope, v: Version, tuples: Walk.Store, c: Compiled)
    returns (states: seq<State>, events: seq<Event>, rt: Runtime)
    requires GoodSetup(setup) && FirstOfSet(setup, v) && MayProduce(setup, v, c)
    ensures Served(setup, states, events, 1, scope, rt) && rt.version == 1
    ensures RolledBackUntil(setup, states, events, scope, 0, 1)
  {
    hide GoodSetup, MayProduce, WellFormed, CacheKey, CacheStep, Step, RunsPolicy, VersionsKeyed, InStore, AcceptsText;
    hide RolledBackTo1, ReplacesRow, Holding, ResolveMay, RowSeen, RollbackLands;
    FirstProduct(setup, v, c);
    HoldingFacts(setup, v, tuples);
    SetIdKept(v.policySetId);
    hide ValidSetId, RequestedSet, Norm, Normal;
    var s := State(map[scope := Holding(v, tuples)], map[]);
    var t, after := AfterRollback(setup, s, scope, v, tuples), map[CacheKey(v) := c];
    rt := ServedAfterRollback(setup, v, tuples, s.cache, c, after);
    RollBackStep(setup, s, scope, v, tuples);
    ServeStep(setup, t, scope, rt, after);
    states := [s, t, t.(cache := after)];
    events := [
      Do(scope, RollBackOf(v, tuples)), Do(scope, Serve(Ok(rt)))];
  }

  // ----- where rollbacks overlap -----

  /** A scope that holds two versions of a set, and no row. */
  function HoldingTwo(v: Version, w: Version, tuples: Walk.Store): StoreState {
    var st := Holding(v, tuples);
    st.(versions := st.versions[(w.policySetId, w.number) := w])
  }

  lemma Lands(st: StoreState, decode: string -> Option<Bundle>, id: string, target: int, seen: Rollout)
    returns (after: StoreState, row: Rollout)
    requires ValidSetId(id) && Normal(id) && id in st.sets && st.failing == {}
    requires target > 0 && (id, target) in st.versions && AcceptsText(st.versions[(id, target)].bundle, decode)
    ensures RollbackLands(st, decode, id, target, seen, after)
    ensures after == st.(rollouts := st.rollouts[id := row])
    ensures forall v :: v in row.validated <==> v == target || (v > 0 && v in seen.validated)
  {
    hide AcceptsText;
    SetIdKept(id);
    hide ValidSetId, RequestedSet, Norm, CanUpsert, Upserted, RolledBackTo;
    assert GetVersion(st, id, target).Found?;
    RolledBackFits(st, id, seen, target);
    after := Upserted(st, RolledBackTo(id, seen, target));
    row := LandingLeaves(st, decode, id, target, seen, after);
  }

  /** Two rollbacks that both read the row before either wrote it: the second loses the
      version the first one validated. */
  lemma OverlapLosesVersion(setup: Setup, scope: Scope, v: Version, w: Version, tuples: Walk.Store)
    returns (states: seq<State>, events: seq<Event>)
    requires FirstOfSet(setup, v) && w.policySetId == v.policySetId && w.number == 2
    requires AcceptsText(w.bundle, setup.decode)
    ensures Run(setup, states, events) && |states| == 3 && |events| == 2
    ensures forall i :: 0 <= i < 3 ==> states[i].stores.Keys == {scope}
    ensures var seen := RowSeen(states[0].stores[scope], v.policySetId);
        events == [
          Do(scope, RollBack(v.policySetId, 1, seen, true)), Do(scope, RollBack(v.policySetId, 2, seen, true))]
    ensures var id, first, second := v.policySetId, states[1].stores[scope], states[2].stores[scope];
        id in first.rollouts && 1 in first.rollouts[id].validated
        && id in second.rollouts && 1 !in second.rollouts[id].validated
  {
    var id, st := v.policySetId, HoldingTwo(v, w, tuples);
    var seen := RowSeen(st, id);
    hide RollbackLands, RowSeen, VersionsKeyed, ValidSetId, Normal, Norm, AcceptsText, Step, HoldingTwo;
    TwoFacts(setup, v, w, tuples);
    hide FirstOfSet;
    var first, row := Lands(st, setup.decode, id, 1, seen);
    var second, last := Lands(first, setup.decode, id, 2, seen);
    var s, t := State(map[scope := st], map[]), State(map[scope := first], map[]);
    var u := State(map[scope := second], map[]);
    LandStep(setup, s, scope, id, 1, seen, first);
    assert s.stores[scope := first] == t.stores;
    LandStep(setup, t, scope, id, 2, seen, second);
    assert t.stores[scope := second] == u.stores;
    states := [s, t, u];
    events := [Do(scope, RollBack(id, 1, seen, true)), Do(scope, RollBack(id, 2, seen, true))];
  }

  lemma TwoFacts(setup: Setup, v: Version, w: Version, tuples: Walk.Store)
    requires FirstOfSet(setup, v) && w.policySetId == v.policySetId && w.number == 2
    ensures VersionsKeyed(HoldingTwo(v, w, tuples))
    ensures var id, st := v.policySetId, HoldingTwo(v, w, tuples);
        && id in st.sets && st.failing == {} && st.versions == map[(id, 1) := v, (id, 2) := w]
    ensures RowSeen(HoldingTwo(v, w, tuples), v.policySetId).validated == []
  {
    hide RowSeen, AcceptsText, VersionsKeyed, RolledBackTo1, RollbackLands;
    NothingSeen(HoldingTwo(v, w, tuples), v.policySetId);
    HoldingFacts(setup, v, tuples);
    hide ValidSetId, Normal, Norm;
    KeyedMore(Holding(v, tuples), w);
  }

  lemma KeyedMore(st: StoreState, v: Version)
    requires VersionsKeyed(st) && ValidSetId(v.policySetId) && Normal(v.policySetId) && v.number > 0
    ensures VersionsKeyed(st.(versions := st.versions[(v.policySetId, v.number) := v]))
  {
    hide ValidSetId, Normal;
  }

  lemma NothingSeen(st: StoreState, id: string)
    requires st.rollouts == map[] && st.failing == {}
    ensures RowSeen(st, id).validated == []
  {
    hide Norm, RequestedSet, ValidSetId;
  }

  // ----- where scopes share a key -----

  ghost function TwoScopes(a: Scope, b: Scope, v: Version, w: Version, tuples: Walk.Store): State {
    State(map[a := Holding(v, tuples), b := Holding(w, tuples)], map[])
  }

  /** The first scope simulates its version, the second rolls back to its own and serves. */
  lemma TwoScopeRun(
      setup: Setup, a: Scope, b: Scope, v: Version, w: Version, tuples: Walk.Store, c: Compiled)
    returns (states: seq<State>, events: seq<Event>, rt: Runtime)
    requires a != b && FirstOfSet(setup, v) && FirstOfSet(setup, w) && WellFormed(c)
    requires CacheStep(setup, map[], v, Some(c), map[CacheKey(v) := c]) && CacheKey(w) == CacheKey(v)
    ensures Served(setup, states, events, 2, b, rt) && RolledBackUntil(setup, states, events, b, 1, 2)
    ensures |states| == 4
    ensures var s := TwoScopes(a, b, v, w, tuples).(cache := map[CacheKey(v) := c]);
        states[2] == AfterRollback(setup, s, b, w, tuples)
    ensures RunsPolicy(states[2].stores[b], c, rt.engine) && rt.registry == c.routes
  {
    hide WellFormed, CacheKey, Step, RunsPolicy, VersionsKeyed, InStore, AcceptsText, MayProduce, Accepts;
    hide RolledBackTo1, ReplacesRow, Holding, ResolveMay, RowSeen, RollbackLands;
    SetIdKept(w.policySetId);
    hide RequestedSet, Norm, ValidSetId, Normal;
    HoldingFacts(setup, v, tuples);
    HoldingFacts(setup, w, tuples);
    var cache := map[CacheKey(v) := c];
    assert CacheStep(setup, cache, w, Some(c), cache);
    hide CacheStep, FirstOfSet;
    var q := TwoScopes(a, b, v, w, tuples);
    var s := q.(cache := cache);
    var t := AfterRollback(setup, s, b, w, tuples);
    rt := ServedAfterRollback(setup, w, tuples, cache, c, cache);
    SimulateStep(setup, q, a, v, tuples, c, cache);
    RollBackStep(setup, s, b, w, tuples);
    ServeStep(setup, t, b, rt, cache);
    states := [q, s, t, t.(cache := cache)];
    events := [
      Do(a, Simulate(v.policySetId, 1, Some(c))),
      Do(b, RollBackOf(w, tuples)), Do(b, Serve(Ok(rt)))];
  }

  /** Two scopes hold a first version of the set under one supplied checksum, with different
      bundles. Once the first scope's version is cached, a rollback in the second scope
      serves the first scope's policy. */
  lemma SharedChecksumCrossesScopes(
      setup: Setup, a: Scope, b: Scope, v: Version, w: Version, tuples: Walk.Store, c: Compiled)
    returns (states: seq<State>, events: seq<Event>, rt: Runtime)
    requires a != b && GoodSetup(setup) && FirstOfSet(setup, v) && FirstOfSet(setup, w) && v.checksum == w.checksum
    requires MayProduce(setup, v, c) && forall d :: MayProduce(setup, w, d) ==> d.routes != c.routes
    ensures Served(setup, states, events, 2, b, rt) && RolledBackUntil(setup, states, events, b, 1, 2)
    ensures |states| == 4 && !KeysTell(setup, StoredVersions(states[2].stores))
    ensures RunsPolicy(states[2].stores[b], c, rt.engine)
    ensures forall d :: MayProduce(setup, w, d) ==> rt.registry != d.routes
  {
    hide GoodSetup, MayProduce, WellFormed, CacheKey, CacheStep, FirstOfSet, RunsPolicy, KeysTell, RolledBackTo1;
    hide Holding, InStore, VersionsKeyed, Run, ReplacesRow, AcceptsText, RequestedSet, Norm, RowSeen, RollbackLands;
    SameFirstKey(setup, v, w);
    HoldingFacts(setup, v, tuples);
    HoldingFacts(setup, w, tuples);
    FirstProduct(setup, v, c);
    states, events, rt := TwoScopeRun(setup, a, b, v, w, tuples, c);
    var stores := states[2].stores;
    VersionsStay(w, Holding(w, tuples), stores[b]);
    assert !MayProduce(setup, w, c);
    KeysClash(setup, stores, a, b, v, w, c);
  }

  lemma SameFirstKey(setup: Setup, v: Version, w: Version)
    requires FirstOfSet(setup, v) && FirstOfSet(setup, w) && v.checksum == w.checksum
    ensures CacheKey(v) == CacheKey(w)
  {
    hide Norm, ValidSetId, AcceptsText;
  }

  lemma VersionsStay(v: Version, st: StoreState, after: StoreState)
    requires after.versions == st.versions && InStore(st, v)
    ensures InStore(after, v)
  {
  }

  lemma KeysClash(
      setup: Setup, stores: map<Scope, StoreState>, a: Scope, b: Scope, v: Version, w: Version, c: Compiled)
    requires a in stores && b in stores && InStore(stores[a], v) && InStore(stores[b], w)
    requires CacheKey(v) == CacheKey(w) && MayProduce(setup, v, c) && !MayProduce(setup, w, c)
    ensures !KeysTell(setup, StoredVersions(stores))
  {
    hide CacheKey, MayProduce, InStore;
    assert Stored(stores, v) && Stored(stores, w);
    assert v in StoredVersions(stores) && w in StoredVersions(stores);
    assert !SameProducts(setup, v, w);
  }
}
