/** Rollout rows: their normalization when read and written, the store that keeps them
    beside the policy versions, and which requests a rollout targets. */
module Rollouts {
  import opened Text
  import opened Lists
  import opened Policy
  import opened Resolver
  import Rbac
  import Walk

  const DISABLED := "disabled"
  const SHADOW := "shadow"
  const ENFORCE := "enforce"

  datatype Rollout = Rollout(
    policySetId: string, active: Option<int>, candidate: Option<int>, mode: string,
    tenantAllowlist: seq<string>, workspaceAllowlist: seq<string>, canary: int, validated: seq<int>)

  predicate KnownMode(mode: string) {
    mode == DISABLED || mode == SHADOW || mode == ENFORCE
  }

  // ----- version lists -----

  /** Positive entries in order of first occurrence. */
  function Positive(values: seq<int>): (r: seq<int>)
    ensures Distinct(r)
    ensures forall v :: v in r <==> v > 0 && v in values
  {
    if values == [] then []
    else
      var kept := Positive(values[..|values| - 1]);
      var v := values[|values| - 1];
      assert values == values[..|values| - 1] + [v];
      if v <= 0 || v in kept then kept else kept + [v]
  }

  function CanonicalVersions(values: seq<int>): seq<int> {
    Sort(Positive(values), IntLe)
  }

  method NormalizeVersions(values: seq<int>) returns (normalized: seq<int>)
    ensures normalized == CanonicalVersions(values)
  {
    normalized := [];
    var seen: set<int> := {};
    for i := 0 to |values|
      invariant normalized == Positive(values[..i])
      invariant seen == Elements(normalized)
    {
      assert values[..i + 1][..i] == values[..i];
      var version := values[i];
      if version > 0 && version !in seen {
        seen := seen + {version};
        normalized := normalized + [version];
      }
    }
    assert values[..|values|] == values;
    normalized := Sort(normalized, IntLe);
  }

  method AppendValidatedVersion(existing: seq<int>, target: int) returns (versions: seq<int>)
    ensures versions == CanonicalVersions(existing + [target])
  {
    if target > 0 {
      versions := NormalizeVersions(existing + [target]);
    } else {
      versions := NormalizeVersions(existing);
      assert (existing + [target])[..|existing|] == existing;
    }
  }

  /** The ascending list of exactly the positive entries. */
  lemma CanonicalVersionsExact(values: seq<int>)
    ensures Ascending(CanonicalVersions(values), IntLe) && Distinct(CanonicalVersions(values))
    ensures forall v :: v in CanonicalVersions(values) <==> v > 0 && v in values
  {
    IntOrder();
    SortedListing(Positive(values), IntLe);
    assert forall v :: v in CanonicalVersions(values) <==> v in Elements(CanonicalVersions(values));
  }

  method NormalizeAllowlist(values: seq<string>) returns (normalized: seq<string>)
    ensures normalized == Sort(Dedupe(values), StringLe)
  {
    var items := DedupeStrings(values);
    normalized := Sort(items, StringLe);
  }

  // ----- runtime normalization -----

  function RuntimeMode(mode: string): string {
    if KnownMode(Norm(mode)) then Norm(mode) else DISABLED
  }

  function RuntimeCanary(canary: int): int {
    if canary <= 0 || canary > 100 then 100 else canary
  }

  function RuntimeRollout(rollout: Rollout, policySetId: string): Rollout {
    Rollout(
      if Norm(policySetId) == "" then DEFAULT_SET else Norm(policySetId),
      rollout.active, rollout.candidate, RuntimeMode(rollout.mode),
      Sort(Dedupe(rollout.tenantAllowlist), StringLe), Sort(Dedupe(rollout.workspaceAllowlist), StringLe),
      RuntimeCanary(rollout.canary), CanonicalVersions(rollout.validated))
  }

  method NormalizeRuntimeRollout(rollout: Rollout, policySetId: string) returns (normalized: Rollout)
    ensures normalized == RuntimeRollout(rollout, policySetId)
  {
    hide Norm, Dedupe, Sort, CanonicalVersions;
    normalized := rollout.(policySetId := Norm(policySetId));
    if normalized.policySetId == "" {
      normalized := normalized.(policySetId := DEFAULT_SET);
    }
    normalized := normalized.(mode := Norm(rollout.mode));
    if !KnownMode(normalized.mode) {
      normalized := normalized.(mode := DISABLED);
    }
    var tenants := NormalizeAllowlist(rollout.tenantAllowlist);
    var workspaces := NormalizeAllowlist(rollout.workspaceAllowlist);
    var versions := NormalizeVersions(rollout.validated);
    normalized := normalized.(tenantAllowlist := tenants, workspaceAllowlist := workspaces, validated := versions);
    if normalized.canary <= 0 {
      normalized := normalized.(canary := 100);
    }
    if normalized.canary > 100 {
      normalized := normalized.(canary := 100);
    }
  }

  // ----- targeting -----

  type Bucket = b: int | 0 <= b < 100

  function RequestTenant(input: Input): string {
    FirstNonEmpty(
      input.resource.tenantId,
      FirstNonEmpty(input.subject.tenantId, Trim(Attribute(input.context.attributes, TENANT_ID_KEY))))
  }

  function RequestWorkspace(input: Input): string {
    FirstNonEmpty(
      input.resource.workspaceId,
      FirstNonEmpty(input.subject.workspaceId, Trim(Attribute(input.context.attributes, WORKSPACE_ID_KEY))))
  }

  function SeedParts(policySetId: string, input: Input): (parts: seq<string>)
    ensures |parts| == 8
  {
    [Trim(policySetId), RequestTenant(input), RequestWorkspace(input), Trim(input.subject.kind),
     Trim(input.subject.id), Trim(input.action), Trim(input.resource.kind), Trim(input.resource.id)]
  }

  function Seed(policySetId: string, input: Input): string {
    Join('|', SeedParts(policySetId, input))
  }

  predicate ContainsExact(values: seq<string>, target: string) {
    exists v :: v in values && Trim(v) == Trim(target)
  }

  predicate Listed(values: seq<string>, target: string) {
    values == [] || ContainsExact(values, target)
  }

  predicate Targets(rollout: Rollout, input: Input, hash: string -> Bucket) {
    && rollout.canary > 0
    && Listed(rollout.tenantAllowlist, RequestTenant(input))
    && Listed(rollout.workspaceAllowlist, RequestWorkspace(input))
    && InCanary(hash(Trim(Seed(rollout.policySetId, input))), rollout.canary)
  }

  predicate Validated(rollout: Rollout, version: int) {
    version > 0 && version in rollout.validated
  }

  /** The stored rollout with another canary percentage, as requests see it. */
  function AtPercent(rollout: Rollout, setId: string, percent: int): Rollout {
    RuntimeRollout(rollout.(canary := percent), setId)
  }

  ghost predicate KeepsTargets(rollout: Rollout, setId: string, input: Input, p: int, q: int) {
    forall hash: string -> Bucket ::
      Targets(AtPercent(rollout, setId, p), input, hash) ==> Targets(AtPercent(rollout, setId, q), input, hash)
  }

  /** Raising the canary from p to q never moves a request back, for any hash, exactly when
      p is positive, or q is at an end of the range: a stored percentage of zero or less
      means 100. */
  lemma CanarySticky(rollout: Rollout, setId: string, input: Input, p: int, q: int)
    requires p <= q
    requires Targets(AtPercent(rollout, setId, 100), input, (s: string) => 0)
    ensures KeepsTargets(rollout, setId, input, p, q) <==> p > 0 || q <= 0 || q >= 100
  {
    hide Seed, RequestTenant, RequestWorkspace, Listed, Sort, Dedupe, CanonicalVersions, Norm, Trim;
    if !(p > 0 || q <= 0 || q >= 100) {
      var last := (s: string) => 99 as Bucket;
      assert Targets(AtPercent(rollout, setId, p), input, last);
      assert !Targets(AtPercent(rollout, setId, q), input, last);
    }
  }

  predicate InCanary(bucket: int, canary: int) {
    canary >= 100 || bucket < canary
  }

  function CanaryBuckets(canary: int): set<int> {
    set b | 0 <= b < 100 && InCanary(b, canary)
  }

  /** Exactly p of the 100 buckets are inside a canary of p percent. */
  lemma {:induction false} BucketsTargeted(p: nat)
    requires p <= 100
    ensures |CanaryBuckets(p)| == p
  {
    if p > 0 {
      BucketsTargeted(p - 1);
      assert CanaryBuckets(p) == CanaryBuckets(p - 1) + {p - 1};
    }
  }

  // ----- who is targeted -----

  /** A written allowlist admits everyone when it names nobody, and else those it names. */
  predicate Admits(entries: seq<string>, name: string) {
    || (forall i :: 0 <= i < |entries| ==> Trim(entries[i]) == "")
    || (Trim(name) != "" && exists i :: 0 <= i < |entries| && Trim(entries[i]) == Trim(name))
  }

  lemma SortedMembers(s: seq<string>)
    ensures forall v :: v in Sort(s, StringLe) <==> v in s
  {
    StringOrder();
    SortCorrect(s, StringLe);
    hide Sort, TotalOrder;
    forall v
      ensures v in Sort(s, StringLe) <==> v in s
    {
      assert v in Sort(s, StringLe) <==> v in multiset(Sort(s, StringLe));
      assert v in s <==> v in multiset(s);
    }
  }

  lemma AllowlistAdmits(entries: seq<string>, name: string)
    ensures Listed(Sort(Dedupe(entries), StringLe), name) <==> Admits(entries, name)
  {
    SortedMembers(Dedupe(entries));
    var clean := Sort(Dedupe(entries), StringLe);
    hide Sort, Trim;
    if clean != [] {
      assert clean[0] in clean;
    }
    if i :| 0 <= i < |entries| && Trim(entries[i]) != "" {
      assert Trim(entries[i]) in clean;
    }
    if Admits(entries, name) && clean != [] {
      var i :| 0 <= i < |entries| && Trim(entries[i]) == Trim(name);
      assert Trim(name) in clean;
      TrimTwice(name);
    }
    if v :| v in clean && Trim(v) == Trim(name) {
      var i :| 0 <= i < |entries| && Trim(entries[i]) == v;
      TrimTwice(entries[i]);
    }
  }

  lemma TrimTwice(s: string)
    ensures Trim(Trim(s)) == Trim(s)
  {
  }

  /** Exactly which requests a stored rollout targets: those its written allowlists admit,
      inside its canary. */
  lemma TargetedExactly(stored: Rollout, setId: string, input: Input, hash: string -> Bucket)
    ensures var rollout := RuntimeRollout(stored, setId);
        Targets(rollout, input, hash) <==>
        && Admits(stored.tenantAllowlist, RequestTenant(input))
        && Admits(stored.workspaceAllowlist, RequestWorkspace(input))
        && InCanary(hash(Trim(Seed(rollout.policySetId, input))), RuntimeCanary(stored.canary))
  {
    AllowlistAdmits(stored.tenantAllowlist, RequestTenant(input));
    AllowlistAdmits(stored.workspaceAllowlist, RequestWorkspace(input));
    hide Admits, Listed, Seed, RequestTenant, RequestWorkspace, Sort, Dedupe, CanonicalVersions, Norm, Trim;
  }

  /** The name rollouts go by: the resource's, else the subject's, else the context's. */
  function Named(resource: string, subject: string, context: Attributes, key: string): string {
    if Trim(resource) != "" then resource
    else if Trim(subject) != "" then subject
    else if key in context then context[key]
    else ""
  }

  /** Main result, field by field: exactly which requests a stored rollout targets. A stored
      percentage outside 1..99 means everyone the lists admit. */
  lemma TargetedByFields(stored: Rollout, setId: string, input: Input, hash: string -> Bucket)
    ensures var subject, resource, context := input.subject, input.resource, input.context.attributes;
        Targets(RuntimeRollout(stored, setId), input, hash) <==>
        && Admits(stored.tenantAllowlist, Named(resource.tenantId, subject.tenantId, context, "tenant_id"))
        && Admits(
             stored.workspaceAllowlist, Named(resource.workspaceId, subject.workspaceId, context, "workspace_id"))
        && (stored.canary <= 0 || stored.canary >= 100
            || hash(Seed(RuntimeRollout(stored, setId).policySetId, input)) < stored.canary)
  {
    TargetedExactly(stored, setId, input, hash);
    var seed := Seed(RuntimeRollout(stored, setId).policySetId, input);
    SeedTrimmed(RuntimeRollout(stored, setId).policySetId, input);
    NamedRequest(input);
    var subject, resource, context := input.subject, input.resource, input.context.attributes;
    var tenant := Named(resource.tenantId, subject.tenantId, context, "tenant_id");
    var workspace := Named(resource.workspaceId, subject.workspaceId, context, "workspace_id");
    TrimTwice(tenant);
    TrimTwice(workspace);
    NamedTrim(stored.tenantAllowlist, RequestTenant(input), tenant);
    NamedTrim(stored.workspaceAllowlist, RequestWorkspace(input), workspace);
    hide Trim, Seed, RuntimeRollout, Admits, Targets, RequestTenant, RequestWorkspace, Named;
  }

  lemma NamedTrim(entries: seq<string>, name: string, other: string)
    requires Trim(name) == Trim(other)
    ensures Admits(entries, name) <==> Admits(entries, other)
  {
    hide Trim;
  }

  lemma SeedTrimmed(setId: string, input: Input)
    ensures Trim(Seed(setId, input)) == Seed(setId, input)
  {
    JoinTrimmed('|', SeedParts(setId, input));
    hide Join, RequestTenant, RequestWorkspace;
  }

  predicate BarFree(s: string) {
    '|' !in s
  }

  ghost predicate NoBars(setId: string, input: Input) {
    && BarFree(setId) && BarFree(input.subject.tenantId) && BarFree(input.subject.workspaceId)
    && BarFree(input.subject.kind) && BarFree(input.subject.id) && BarFree(input.action)
    && BarFree(input.resource.tenantId) && BarFree(input.resource.workspaceId)
    && BarFree(input.resource.kind) && BarFree(input.resource.id)
    && forall k :: k in input.context.attributes ==> BarFree(input.context.attributes[k])
  }

  /** The seed of a request's bucket is the rollout's set, the request's scope, who asks, for
      what action and on what, in this order; nothing else, neither roles nor attributes,
      moves a request to another bucket. */
  lemma SeedFields(setId: string, input: Input)
    requires NoBars(setId, input)
    ensures var subject, resource, context := input.subject, input.resource, input.context.attributes;
        Split('|', Seed(setId, input)) == [
          Trim(setId), Trim(Named(resource.tenantId, subject.tenantId, context, "tenant_id")),
          Trim(Named(resource.workspaceId, subject.workspaceId, context, "workspace_id")),
          Trim(subject.kind), Trim(subject.id), Trim(input.action), Trim(resource.kind), Trim(resource.id)]
  {
    hide Join, Split, SeedParts, RequestTenant, RequestWorkspace;
    forall i | 0 <= i < 8
      ensures '|' !in SeedParts(setId, input)[i]
    {
      PartBarFree(setId, input, i);
    }
    SplitJoin('|', SeedParts(setId, input));
    PartsNamed(setId, input);
  }

  lemma PartsNamed(setId: string, input: Input)
    ensures var subject, resource, context := input.subject, input.resource, input.context.attributes;
        SeedParts(setId, input) == [
          Trim(setId), Trim(Named(resource.tenantId, subject.tenantId, context, "tenant_id")),
          Trim(Named(resource.workspaceId, subject.workspaceId, context, "workspace_id")),
          Trim(subject.kind), Trim(subject.id), Trim(input.action), Trim(resource.kind), Trim(resource.id)]
  {
    NamedRequest(input);
    hide Named, RequestTenant, RequestWorkspace, Trim;
  }

  lemma PartBarFree(setId: string, input: Input, i: nat)
    requires NoBars(setId, input) && i < 8
    ensures BarFree(SeedParts(setId, input)[i])
  {
    hide BarFree, Named, SeedParts, Trim;
    var subject, resource, context := input.subject, input.resource, input.context.attributes;
    var tenant := Named(resource.tenantId, subject.tenantId, context, "tenant_id");
    var workspace := Named(resource.workspaceId, subject.workspaceId, context, "workspace_id");
    PartsNamed(setId, input);
    NamedBarFree(resource.tenantId, subject.tenantId, context, "tenant_id");
    NamedBarFree(resource.workspaceId, subject.workspaceId, context, "workspace_id");
    TrimBarFree(
      [setId, tenant, workspace, subject.kind, subject.id, input.action, resource.kind, resource.id], i);
  }

  lemma TrimBarFree(raw: seq<string>, i: nat)
    requires i < |raw| && BarFree(raw[i])
    ensures BarFree(Trim(raw[i]))
  {
    hide Trim;
    TrimPart(raw[i], '|');
  }

  lemma NamedBarFree(resource: string, subject: string, context: Attributes, key: string)
    requires BarFree(resource) && BarFree(subject) && forall k :: k in context ==> BarFree(context[k])
    ensures BarFree(Named(resource, subject, context, key))
  {
    hide Trim;
  }

  lemma NamedRequest(input: Input)
    ensures var subject, resource, context := input.subject, input.resource, input.context.attributes;
        && RequestTenant(input) == Trim(Named(resource.tenantId, subject.tenantId, context, "tenant_id"))
        && RequestWorkspace(input) == Trim(Named(resource.workspaceId, subject.workspaceId, context, "workspace_id"))
  {
    TrimTwice(input.subject.tenantId);
    TrimTwice(input.subject.workspaceId);
    TrimTwice(Attribute(input.context.attributes, TENANT_ID_KEY));
    TrimTwice(Attribute(input.context.attributes, WORKSPACE_ID_KEY));
    hide Trim;
  }

  /** For a request without a scope conflict, rollouts look at the very tenant and workspace
      that isolation checked. */
  lemma RolloutSeesCheckedScope(input: Input)
    requires !Rbac.ScopesConflict(input)
    ensures Rbac.TargetTenant(input) != "" ==> RequestTenant(input) == Rbac.TargetTenant(input)
    ensures Rbac.TargetWorkspace(input) != "" ==> RequestWorkspace(input) == Rbac.TargetWorkspace(input)
  {
    TrimTwice(input.resource.tenantId);
    TrimTwice(input.resource.workspaceId);
    TrimTwice(input.subject.tenantId);
    TrimTwice(input.subject.workspaceId);
    TrimTwice(Attribute(input.context.attributes, TENANT_ID_KEY));
    TrimTwice(Attribute(input.context.attributes, WORKSPACE_ID_KEY));
    hide Trim;
  }

  // ----- the persisted state -----

  datatype Access = ReadRollout | ReadVersion(number: int) | WriteRollout

  datatype Fetch<+T> = Found(value: T) | Missing | Unavailable

  /** One tenant's policy store; `failing` names the accesses that currently error. */
  datatype StoreState = StoreState(
    versions: map<(string, int), Version>, rollouts: map<string, Rollout>, sets: set<string>,
    tuples: Walk.Store, failing: set<Access>)

  predicate SetIdChar(c: char) {
    'a' <= c <= 'z' || '0' <= c <= '9' || c == '.' || c == '_' || c == '-'
  }

  predicate ValidSetId(id: string) {
    && 1 <= |id| <= 64
    && ('a' <= id[0] <= 'z' || '0' <= id[0] <= '9')
    && forall i :: 0 <= i < |id| ==> SetIdChar(id[i])
  }

  function GetRollout(st: StoreState, setId: string): Fetch<Rollout> {
    if !ValidSetId(Norm(setId)) || ReadRollout in st.failing then Unavailable
    else if Norm(setId) in st.rollouts then Found(st.rollouts[Norm(setId)])
    else Missing
  }

  function GetVersion(st: StoreState, setId: string, number: int): Fetch<Version> {
    if !ValidSetId(Norm(setId)) || number <= 0 || ReadVersion(number) in st.failing then Unavailable
    else if (Norm(setId), number) in st.versions then Found(st.versions[(Norm(setId), number)])
    else Missing
  }

  function CleanMode(mode: string): string {
    if Norm(mode) == "" then DISABLED else Norm(mode)
  }

  lemma KnownModeNormal(mode: string)
    requires KnownMode(mode)
    ensures RuntimeMode(mode) == mode && CleanMode(mode) == mode
  {
    hide Norm;
    LettersNormal(mode);
  }

  /** The write-time check of a rollout row. */
  function CleanRollout(r: Rollout): Option<Rollout> {
    var mode := CleanMode(r.mode);
    var canary := if r.canary == 0 then 100 else r.canary;
    var clean := Rollout(
      Norm(r.policySetId), r.active, r.candidate, mode,
      Sort(Dedupe(r.tenantAllowlist), StringLe), Sort(Dedupe(r.workspaceAllowlist), StringLe),
      canary, CanonicalVersions(r.validated));
    if !ValidSetId(clean.policySetId)
      || (r.active.Some? && r.active.value <= 0) || (r.candidate.Some? && r.candidate.value <= 0)
      || !KnownMode(mode) || canary < 0 || canary > 100
      || (exists v :: v in r.validated && v <= 0)
      || (mode == ENFORCE && r.active.Some? && r.active.value !in clean.validated)
      || (mode == ENFORCE && r.candidate.Some? && r.candidate.value !in clean.validated)
    then None
    else Some(clean)
  }

  predicate VersionKnown(st: StoreState, setId: string, number: Option<int>) {
    number.Some? ==> (setId, number.value) in st.versions
  }

  predicate CanUpsert(st: StoreState, r: Rollout) {
    && WriteRollout !in st.failing && CleanRollout(r).Some?
    && var clean := CleanRollout(r).value;
       && clean.policySetId in st.sets
       && VersionKnown(st, clean.policySetId, clean.active) && VersionKnown(st, clean.policySetId, clean.candidate)
  }

  function Upserted(st: StoreState, r: Rollout): StoreState
    requires CanUpsert(st, r)
  {
    st.(rollouts := st.rollouts[CleanRollout(r).value.policySetId := CleanRollout(r).value])
  }

  // ----- what the write path accepts -----

  const DIGITS := "0123456789"

  /** Set names: one letter or digit, then up to 63 of these, dots, underscores and dashes. */
  lemma SetIdExact(id: string)
    ensures ValidSetId(id) <==>
        && 0 < |id| <= 64 && (id[0] in LETTERS || id[0] in DIGITS)
        && forall i :: 0 <= i < |id| ==> id[i] in LETTERS || id[i] in DIGITS || id[i] in ['.', '_', '-']
  {
    forall i | 0 <= i < |id|
      ensures id[i] in LETTERS <==> 'a' <= id[i] <= 'z'
      ensures id[i] in DIGITS <==> '0' <= id[i] <= '9'
    {
      LetterExact(id[i]);
      DigitExact(id[i]);
    }
  }

  lemma DigitExact(c: char)
    ensures c in DIGITS <==> '0' <= c <= '9'
  {
    assert '0' <= c <= '9' ==> DIGITS[c as int - '0' as int] == c;
  }

  /** Main result, as written: exactly which rollout rows can be stored. */
  lemma RowAccepted(r: Rollout)
    ensures CleanRollout(r).Some? <==>
        && ValidSetId(Norm(r.policySetId))
        && (forall n :: n in {r.active, r.candidate} && n.Some? ==> n.value > 0)
        && Norm(r.mode) in ["", "disabled", "shadow", "enforce"]
        && 0 <= r.canary <= 100
        && (forall v :: v in r.validated ==> v > 0)
        && (Norm(r.mode) == "enforce" ==>
              forall n :: n in {r.active, r.candidate} && n.Some? ==> n.value in r.validated)
  {
    CanonicalVersionsExact(r.validated);
    DisabledNormal();
    assert r.active in {r.active, r.candidate} && r.candidate in {r.active, r.candidate};
    hide Sort, Dedupe, CanonicalVersions, Norm, ValidSetId;
  }

  /** And what is stored: the same pointers and versions, the cleaned names, and 100 for a
      percentage of zero. */
  lemma RowStored(r: Rollout)
    requires CleanRollout(r).Some?
    ensures var c := CleanRollout(r).value;
        && c.policySetId == Norm(r.policySetId) && c.active == r.active && c.candidate == r.candidate
        && c.mode == (if Norm(r.mode) == "" then "disabled" else Norm(r.mode))
        && c.canary == (if r.canary == 0 then 100 else r.canary)
        && (forall v :: v in c.validated <==> v in r.validated)
        && (forall v :: v in c.tenantAllowlist <==> v != "" && exists w :: w in r.tenantAllowlist && Trim(w) == v)
        && (forall v :: v in c.workspaceAllowlist <==> v != "" && exists w :: w in r.workspaceAllowlist && Trim(w) == v)
  {
    CanonicalVersionsExact(r.validated);
    CleanNames(r.tenantAllowlist);
    CleanNames(r.workspaceAllowlist);
    hide Sort, Dedupe, CanonicalVersions, Norm, ValidSetId;
  }

  lemma CleanNames(entries: seq<string>)
    ensures forall v :: v in Sort(Dedupe(entries), StringLe) <==> v != "" && exists w :: w in entries && Trim(w) == v
  {
    SortedMembers(Dedupe(entries));
    hide Sort, Trim, Dedupe;
    forall v
      ensures v in Dedupe(entries) <==> v != "" && exists w :: w in entries && Trim(w) == v
    {
      DedupeHas(entries, v);
    }
  }

  /** The runtime form of a row: the same pointers, an unknown mode read as "disabled". */
  lemma RuntimeRow(r: Rollout, setId: string)
    ensures var c := RuntimeRollout(r, setId);
        && c.policySetId == (if Norm(setId) == "" then "central_authorization" else Norm(setId))
        && c.active == r.active && c.candidate == r.candidate
        && c.mode == (if Norm(r.mode) in ["shadow", "enforce"] then Norm(r.mode) else "disabled")
        && forall v :: v in c.validated <==> v > 0 && v in r.validated
  {
    CanonicalVersionsExact(r.validated);
    hide Sort, Dedupe, CanonicalVersions, Norm;
  }

  /** Main result: exactly when a row is written, and that it is then read back, cleaned, under
      every spelling of its set's name. */
  lemma WrittenReadBack(st: StoreState, r: Rollout, setId: string)
    ensures CanUpsert(st, r) <==>
        && CleanRollout(r).Some? && Norm(r.policySetId) in st.sets && WriteRollout !in st.failing
        && forall n :: n in {r.active, r.candidate} && n.Some? ==> (Norm(r.policySetId), n.value) in st.versions
    ensures CanUpsert(st, r) && ReadRollout !in st.failing && Norm(setId) == Norm(r.policySetId) ==>
        GetRollout(Upserted(st, r), setId) == Found(CleanRollout(r).value)
    ensures CanUpsert(st, r) && Norm(setId) != Norm(r.policySetId) ==>
        GetRollout(Upserted(st, r), setId) == GetRollout(st, setId)
  {
    assert r.active in {r.active, r.candidate} && r.candidate in {r.active, r.candidate};
    if CleanRollout(r).Some? {
      RowStored(r);
      RowAccepted(r);
    }
    hide CleanRollout, Norm, ValidSetId;
  }

  /** A stored version is read back under every spelling of its set's name, a missing one is
      missing, and nothing is read while reads fail. */
  lemma VersionReadBack(st: StoreState, v: Version, setId: string)
    requires ValidSetId(Norm(v.policySetId)) && v.number > 0 && Norm(setId) == Norm(v.policySetId)
    requires ReadVersion(v.number) !in st.failing
    ensures var stored := st.(versions := st.versions[(Norm(v.policySetId), v.number) := v]);
        && GetVersion(stored, setId, v.number) == Found(v)
        && forall other, n :: (Norm(other), n) != (Norm(setId), v.number) ==>
             GetVersion(stored, other, n) == GetVersion(st, other, n)
    ensures (Norm(setId), v.number) !in st.versions ==> GetVersion(st, setId, v.number) == Missing
  {
    hide Norm, ValidSetId;
  }

  /** A read fails exactly while the store fails it, or when it asks for an impossible name or
      number; a failing read is never taken for a missing row. */
  lemma ReadFails(st: StoreState, setId: string, n: int)
    ensures GetRollout(st, setId).Unavailable? <==> ReadRollout in st.failing || !ValidSetId(Norm(setId))
    ensures GetVersion(st, setId, n).Unavailable? <==>
        ReadVersion(n) in st.failing || !ValidSetId(Norm(setId)) || n <= 0
    ensures GetVersion(st, setId, n).Missing? ==> (Norm(setId), n) !in st.versions
    ensures GetRollout(st, setId).Missing? ==> Norm(setId) !in st.rollouts
  {
    hide Norm, ValidSetId;
  }

  // ----- stored rows are stable -----

  lemma ListCleanTwice(values: seq<string>)
    ensures var clean := Sort(Dedupe(values), StringLe);
        Sort(Dedupe(clean), StringLe) == clean
  {
    var clean := Sort(Dedupe(values), StringLe);
    StringOrder();
    SortedListing(Dedupe(values), StringLe);
    SortedMembers(Dedupe(values));
    hide Sort, TotalOrder;
    forall v | v in clean
      ensures v != "" && Trimmed(v)
    {
      assert v in Dedupe(values);
    }
    DedupeIdempotent(clean);
    SortCorrect(clean, StringLe);
    SortedUnique(Sort(clean, StringLe), clean, StringLe);
  }

  lemma VersionsCleanTwice(values: seq<int>)
    ensures CanonicalVersions(CanonicalVersions(values)) == CanonicalVersions(values)
  {
    var clean := CanonicalVersions(values);
    CanonicalVersionsExact(values);
    CanonicalVersionsExact(clean);
    hide CanonicalVersions;
    IntOrder();
    assert forall v :: v in Elements(clean) <==> v in Elements(CanonicalVersions(clean));
    AscendingUnique(CanonicalVersions(clean), clean, IntLe);
  }

  lemma CleanModeTwice(mode: string)
    ensures CleanMode(CleanMode(mode)) == CleanMode(mode)
  {
    NormIdempotent(mode);
    DisabledNormal();
    hide Norm;
  }

  lemma DisabledNormal()
    ensures Norm(DISABLED) == DISABLED
  {
    LettersNormal(DISABLED);
  }

  /** What a write stored, a further write of the same row would store again. */
  lemma CleanRolloutTwice(r: Rollout)
    requires CleanRollout(r).Some?
    ensures CleanRollout(CleanRollout(r).value) == CleanRollout(r)
  {
    NormIdempotent(r.policySetId);
    ListCleanTwice(r.tenantAllowlist);
    ListCleanTwice(r.workspaceAllowlist);
    VersionsCleanTwice(r.validated);
    CanonicalVersionsExact(r.validated);
    CleanModeTwice(r.mode);
    hide Sort, Dedupe, CanonicalVersions, Norm, CleanMode, ValidSetId;
  }

  /** A stored enforce row names only validated versions. */
  lemma EnforceNamesValidated(r: Rollout)
    requires CleanRollout(r) == Some(r) && r.mode == ENFORCE
    ensures r.active.Some? ==> r.active.value in r.validated
    ensures r.candidate.Some? ==> r.candidate.value in r.validated
  {
    hide Sort, Dedupe, CanonicalVersions, Norm, CleanMode, ValidSetId;
  }
}
