# Verification of the authorization core

A Dafny model of the centralized authorization engine of Identrail, of the protocols
around it, and of three algorithms of the AWS risk views, with proofs of what they keep.

`dafny verify dfyconfig.toml` checks the project.

## What is modelled

**The policy language and its compiler** (`policy`, `abac`, `rbac`, `rebac`, `compile`).
A bundle of routes, role grants, attribute conditions and relationship paths is validated
and normalized. Go ranges over maps in an arbitrary order; the loops here pick keys
arbitrarily too, and `Lists.Rekeyed` says what every order has in common. Results do not
depend on the order when keys do not clash after cleaning (`Compile.CompilationDeterministic`).

**The decision engine** (`engine`, `walk`, `meaning`). Four stages (tenant isolation, role
gate, attribute conditions, relationships) decide a request and leave a trace. The
relationship stage walks a graph of stored tuples level by level. `Meaning.DecisionMeaning`
gives the engine's answers a declarative reading, and `Meaning.BundleMeaning` carries that
reading through the compiler to the bundle as its author wrote it.

**The policy runtime** (`compat`, `resolver`, `rollouts`, `runtimes`, `rollback`, `serving`,
`runs`). Persisted versions are compiled through a shared cache, refreshed when they are the
former built-in bundle, and overlaid with newly shipped routes, both by writing into the
compiled policy's maps, which are objects here as in the source. A rollout chooses between an
active and a candidate version. `serving` says which policy a resolved runtime runs. In `runs`
many tenants' workspaces share one resolver; publishing, rollout writes, rollbacks, requests,
simulations, store faults and restarts follow each other in any order, from any stored state.

**Roles of a request** (`roles`): scopes, token claims and workspace membership.

**Concurrent protocols** (`webhook`, `shadow`). The webhook ledger and the shadow counters
are state machines whose steps are the single database statements and atomic counter
operations of the code, interleaved without bound; deliveries crash, time out after their
statement landed, and reuse no token.

**Three algorithms** (`findings`, `blast`, `severity`): merging findings, flattening a tree of
roles, agent and targets into a path, and picking the most severe verification.

Specifications name functions that the code and the theorems share. So that no shared function
can be wrong unnoticed, each operation is also stated in the fields of its request, document,
row or step, without those functions: the lemmas whose names end in `Exact` or `Fields`, and
`Rebac.AllowHasTuples`, `Rebac.TuplesAllow`, `Meaning.AllowHasGrounds`, `Rollouts.RowAccepted`,
`Rollouts.RowStored` and `Roles.MachineRoles`.

`text` and `lists` hold trimming, letter case, sorting and duplicate removal, concretely.

## What the proofs found

Where the code differs from its comments, or a plausible property fails, the model follows
the code, and a lemma gives the input.

- The relationship walk keys its frontier by `type|id`. Two objects with the same key share
  one slot, and a chain through the other is missed (`Walk.SharedKeyLosesChain`). Kinds are
  free text, so such objects can be stored. The walk finds every listed chain over a set of
  objects exactly when no two share a key (`Walk.NeverMissesExactly`), as without bars in kinds.
- A listing returns at most 200 tuples. A subject in 201 groups loses the chain through the
  last of them (`Walk.TruncationLosesChain`): its relationship is denied though it exists.
- The comment at internal/api/authz_middleware.go:990-992 says that a user without a
  membership row keeps only machine scope roles. The code also keeps `read` and `write` named
  by claims (`Roles.NonMemberRoles`), and drops the machine scope `admin`, because it has the
  name of a workspace role (`Roles.AdminScopeDropped`).
- A stored canary percentage of zero or less is read as 100, so raising it can narrow the
  rollout (`Rollouts.CanarySticky` gives the exact condition).
- The compatibility overlay preserves decisions on registered actions exactly under
  `Compat.OverlaySafe`, which can be read off the policy text: an action the base registers
  without relationship paths gains the fallback's, which matters exactly when its attribute
  policy can fall through. The shipped overlay satisfies it.
- The cache trusts its key, and one cache serves all tenants (internal/api/router.go:415-417)
  though the key names no tenant. The write path keeps a supplied checksum
  (internal/db/store.go:1661-1664), so two workspaces can hold different versions under one
  key, and then one is served the other's policy, even after a rollback
  (`Runs.SharedChecksumCrossesScopes`). The cache is transparent exactly for sets of versions
  in which equal keys mean equal products (`Resolver.CacheTransparentExactly`). A single scope
  is such a set (`Runs.OneScopeTells`), and so are versions whose checksums were computed
  (`Resolver.ComputedChecksumsTell`). The run theorems assume no more than this condition. The
  guard against an all-blank key is dead.
- The comment at internal/api/aws_advisory_authorization.go:502-506 says the severity rank
  mirrors the classifier. It does for every entry the code produces: the only producer always
  sets an ID and a known state (internal/api/aws_post_remediation_verification.go:599-611 and
  706-735), and then the pick is the strictest (`Severity.SelectedIsStrictest`). For entries of
  any other origin it can fail (`Severity.UnknownStateUnderstated`, `Severity.BlankIdDisplaced`),
  and `Severity.StrictestExactly` says exactly when.
- The published shadow divergence rate can exceed one when evaluations overlap
  (`Shadow.OverlapPublishesTwo`); `Shadow.RateExact` says when.
- Merging findings can lower the confidence (`Findings.ConfidenceNotMaximal`).
- A webhook event's effect can be applied again after its claim went stale or was swept;
  `Webhook.AppliedAtMostOnce` bounds how often, and `Webhook.BoundAttained` gives, for every
  number of takeovers, a run that reaches the bound.
- A rollback reads the row and writes it in two store calls. Two rollbacks that overlap can
  lose a validated version (`Runs.OverlapLosesVersion`); `Rollback.LandingKeepsExactly` says when.
  Which version is served afterwards is not affected (`Runs.RollbackGoverns`).
- The version a rollback reports as previously effective was not deciding when its bundle does
  not compile (`Runs.EffectiveVersionExact`).

## Model

| member | source | states |
|---|---|---|
| Walk.EvaluatePath | internal/api/authz_evaluators.go:524-581 | the level-by-level walk, with its frontier map keyed by type and identifier, any map order, the lookup limit and store errors, returns only what the nondeterministic walk relation allows |
| Walk.CheckLastHop | internal/api/authz_evaluators.go:532-550 | the last relation is looked up towards the target from each frontier node in turn, and stops at the first hit or error |
| Walk.NoMeansAnswered | internal/api/authz_evaluators.go:524-581 | a "no" means that every frontier node was asked and answered: a failing query is an error, never a denial |
| Walk.ErrorMeansFailure | internal/api/authz_evaluators.go:524-581 | and an error means that some query failed |
| Walk.CollectNext | internal/api/authz_evaluators.go:551-573 | one level: the targets of every frontier node's listed tuples, keyed, later ones overwriting earlier ones |
| Walk.SelectsExact | internal/db/memory.go:1413-1462 | exactly which tuples a listing selects, for a filter as written: the live ones that agree with each of its fields that is not blank |
| Walk.ListFails | internal/db/memory.go:1413-1432 | exactly when a listing fails: its query does, or it asks for no relation there is |
| Walk.CleanRowIsStored | internal/db/store.go:1573-1614 | whatever the write path accepts has the clean shape the walk relies on |
| Walk.RowWritten | internal/db/store.go:1573-1614 | exactly which tuples can be written, as given, and what is stored of them, field by field |
| Walk.WalkExact | internal/api/authz_evaluators.go:524-581 | for every finite, possibly cyclic store, every limit and every map order: a "yes" has a chain of listed tuples behind it, and with unambiguous keys a listed chain is always found, so the order never matters |
| Walk.ListedChainIsChain | internal/db/memory.go:1413-1485 | a listed chain is a chain of live tuples |
| Walk.ChainIsListed | internal/db/memory.go:1413-1485 | with no intermediate listing cut short, a chain of live tuples is a listed chain |
| Walk.WalkDecidesChain | internal/api/authz_evaluators.go:524-581 | the walk decides relational composition: sound for any limit of at least one, complete when no intermediate listing is truncated and frontier keys are unambiguous |
| Walk.NoBarKeysInjective | internal/api/authz_evaluators.go:561-569 | object types without a bar make the frontier keys unambiguous |
| Walk.NeverMissesExactly | internal/api/authz_evaluators.go:524-581 | over any set of objects, the walk finds every listed chain in every store exactly when no two of the objects share a frontier key |
| Walk.TruncationLosesChain | internal/api/authz_evaluators.go:415-423 | for every limit (200 in the code) and any limit + 1 groups of one subject, the chain through the last listed group is never found |
| Walk.GroupsExist | internal/db/store.go:1573-1614 | for every limit there are that many storable groups and one more |
| Walk.SharedKeyLosesChain | internal/api/authz_evaluators.go:561-577 | for any two distinct groups with the same frontier key there is a small store in which a chain exists and every run of the walk answers "no" |
| Walk.SharedKeyExists | internal/db/store.go:1573-1614 | two storable objects with the same frontier key exist |
| Abac.Evaluate | internal/api/authz_evaluators.go:243-285 | the attribute stage's loops and early exits compute the disjunction of clauses, `OnNoMatch` otherwise, and allow for an empty `AnyOf` |
| Abac.CheckAll | internal/api/authz_evaluators.go:583-598 | all conditions of a path hold, with an early exit |
| Abac.NormalizeConditions | internal/api/authz_evaluators.go:197-200 | the loop cleans every condition, in order |
| Abac.NormalizePolicy | internal/api/authz_evaluators.go:194-212 | the clause loops compute the cleaned policy |
| Abac.NormalizePredicate | internal/api/authz_evaluators.go:214-241 | source, key, operator, value and value list are cleaned field by field, the list losing blanks and keeping order |
| Abac.NormalizePolicies | internal/api/authz_evaluators.go:182-192 | for every map order the result holds a cleaned entry under every cleaned non-blank key and nothing else |
| Abac.ValidatePolicy | internal/api/authz_policy_bundle_runtime.go:609-626 | accepts exactly the policies whose every condition is valid |
| Abac.ValidatePredicate | internal/api/authz_policy_bundle_runtime.go:628-673 | accepts exactly conditions with a known source and operator, a key and the operand the operator needs |
| Abac.CleanPolicyIdempotent | internal/api/authz_evaluators.go:194-241 | the second normalization, in the evaluator's constructor, changes nothing |
| Abac.CleanPredicateMeaning | internal/api/authz_evaluators.go:214-241 | a cleaned condition holds exactly when the condition as written does |
| Abac.CleanPolicyMeaning | internal/api/authz_evaluators.go:194-285 | evaluating after one or two normalizations gives the outcome of the policy as written: some clause with all conditions true, else `OnNoMatch` |
| Abac.ValidPredicateReachesNoFallback | internal/api/authz_evaluators.go:287-318 | on validated policies the unsupported-operator and unknown-source branches are dead |
| Abac.LookupExact | internal/api/authz_evaluators.go:377-393 | an attribute is found under any spelling of its name |
| Abac.SameAttribute | internal/api/authz_evaluators.go:287-318 | an attribute comparison holds exactly when both sides are present and equal |
| Abac.SameTenant | internal/api/authz_evaluators.go:320-375 | comparing tenants reads the identities of subject and resource, not their attributes |
| Abac.SameWorkspace | internal/api/authz_evaluators.go:320-375 | the same for workspaces |
| Abac.OperandsExact | internal/api/authz_evaluators.go:287-318 | an operator reads its own operands only, and a condition with another operator, another source or a blank key never holds |
| Abac.OneOfExact | internal/api/authz_evaluators.go:287-318 | the list operator is a disjunction of equalities |
| Abac.EqualsAttributeExact | internal/api/authz_evaluators.go:287-318 | the comparison operator holds exactly when both sides equal one value |
| Abac.KeySpelling | internal/api/authz_evaluators.go:320-375 | names of attributes may be written in any case |
| Abac.SubjectFields | internal/api/authz_evaluators.go:327-344 | which field of the subject each reserved name reads |
| Abac.ResourceFields | internal/api/authz_evaluators.go:345-360 | which field of the resource each reserved name reads |
| Abac.ContextFields | internal/api/authz_evaluators.go:361-371 | which field of the context each reserved name reads |
| Abac.AttributeFields | internal/api/authz_evaluators.go:320-393 | every other name reads the attributes of its own source, whatever their spelling, and a blank value counts as missing |
| Abac.ValidExactly | internal/api/authz_policy_bundle_runtime.go:628-673 | the compiler accepts exactly the conditions that some request can meet |
| Abac.ValidPolicyExactly | internal/api/authz_policy_bundle_runtime.go:609-626 | and exactly the policies all of whose conditions can be met and whose outcome without a match is open or known |
| Rebac.Evaluate | internal/api/authz_evaluators.go:475-522 | the relationship stage returns only what the stage relation allows, errors and missing identifiers included |
| Rebac.EvaluatePaths | internal/api/authz_evaluators.go:499-521 | paths are tried in order: failed conditions and dead walks pass on, the first live walk allows, an error stops, and nothing left denies |
| Rebac.NormalizePaths | internal/api/authz_evaluators.go:448-464 | unsupported or blank relations drop out, empty paths disappear |
| Rebac.NormalizePolicies | internal/api/authz_evaluators.go:425-446 | cleaned keys, and no entry for a policy left without paths |
| Rebac.PathsExact | internal/api/authz_evaluators.go:475-581 | an allow has a realized path behind it; a deny means there is none, when no chain is hidden |
| Rebac.StageExact | internal/api/authz_evaluators.go:475-522 | on an action with paths the stage allows only granted requests, and all of them when no chain is hidden |
| Rebac.GrantedExact | internal/api/authz_evaluators.go:475-581 | a request is granted exactly when live stored tuples, with the relations of a path whose conditions hold, lead from the subject named by its fields to the resource named by its fields |
| Rebac.AllowHasTuples | internal/api/authz_evaluators.go:475-522 | every allow of the stage has such tuples behind it |
| Rebac.TuplesAllow | internal/api/authz_evaluators.go:491-550 | such tuples make the stage allow unless a query fails: a single tuple always, longer ones when keys are unambiguous and listings long enough |
| Rebac.CleanPathsIdempotent | internal/api/authz_evaluators.go:448-464 | cleaning relation paths twice is cleaning them once |
| Rbac.NormalizeGrants | internal/api/authz_evaluators.go:120-140 | for every map order, a role set per cleaned action, none for empty sets |
| Rbac.CollectRoles | internal/api/authz_evaluators.go:127-134 | the cleaned non-blank roles of one grant |
| Rbac.SubjectHasAnyRole | internal/api/authz_evaluators.go:142-153 | found exactly when a cleaned subject role is granted |
| Rbac.EvaluateGate | internal/api/authz_evaluators.go:102-118 | denies exactly a mapped action without a granted role |
| Rbac.IsolationExact | internal/api/authz_evaluators.go:42-62 | a request is denied exactly when its subject belongs to another tenant or workspace than the resource names or, where it names none, the request's context |
| Rbac.GateExact | internal/api/authz_evaluators.go:102-153 | the gate denies exactly when the action has a grant and no role of the subject is spelled like a granted one, up to case and outer white space |
| Engine.DecideWithTrace | internal/api/authz_policy.go:112-221 | for any four evaluators: without an error the trace has the decision's shape, the decision follows the stages' outcomes and gives the deciding evaluator's own reason or a fixed text; with an error the trace stops before a stage that failed or at one that answered something unknown |
| Engine.Decide | internal/api/authz_policy.go:106-109 | the decision without its trace, never with a blank reason |
| Engine.EvaluateStage | internal/api/authz_policy.go:147-159 | each of the four evaluators, or any other, returns only what its specification allows |
| Engine.TraceTellsDecision | internal/api/authz_policy.go:112-221 | exactly one of the five steps allows or denies, it is the decision's stage, and no other decision has this trace |
| Engine.DecisionTellsTrace | internal/api/authz_policy.go:112-221 | decisions fix every stage and outcome of their traces: silent before, skipped after |
| Compile.CompileRoutes | internal/api/authz_policy_bundle_runtime.go:463-524 | succeeds exactly on defined routes with distinct keys, and registers exactly those |
| Compile.RouteLookupExact | internal/api/authz_middleware.go:65-72 | a request finds a route exactly when a definition names its method and path, up to method case and outer white space, and finds that definition's route |
| Compile.RouteFieldsExact | internal/api/authz_policy_bundle_runtime.go:478-482 | and the route found has the definition's action, resource type and ID parameter, cleaned |
| Compile.DefinitionAccepted | internal/api/authz_policy_bundle_runtime.go:488-524 | exactly which definitions are accepted, as written: a known method, a path under /v1/, an action, a resource type, and an ID parameter the path contains |
| Compile.CompileRoles | internal/api/authz_policy_bundle_runtime.go:526-563 | succeeds exactly when keys are routed actions, all are covered and every grant names a role; compiles each grant to its canonical list |
| Compile.CompileAttributes | internal/api/authz_policy_bundle_runtime.go:565-588 | succeeds exactly on valid policies for exactly the routed actions |
| Compile.CompileRelations | internal/api/authz_policy_bundle_runtime.go:590-607 | succeeds exactly on valid relation policies for routed actions |
| Compile.ValidateRelationPolicy | internal/api/authz_policy_bundle_runtime.go:675-693 | accepts exactly policies with only supported relations and valid conditions |
| Compile.ValidatePath | internal/api/authz_policy_bundle_runtime.go:677-690 | accepts exactly non-empty paths of supported relations with valid conditions |
| Compile.ValidPathExactly | internal/api/authz_policy_bundle_runtime.go:677-690 | accepts exactly the paths that name one of the four relations at every hop and whose every condition some request can meet |
| Compile.CompileBundle | internal/api/authz_policy_bundle_runtime.go:433-461 | succeeds exactly on well-formed bundles, and then compiles every part |
| Compile.CompileText | internal/api/authz_policy_bundle_runtime.go:421-431 | blank or undecodable text is refused, otherwise the bundle is compiled |
| Compile.SortRoles | internal/api/authz_policy_bundle_runtime.go:550-555 | the ascending duplicate-free listing of a role set, for any iteration order |
| Compile.CanonicalRolesExact | internal/api/authz_policy_bundle_runtime.go:526-563 | grants compile to equal lists exactly when they are equal up to order, repeats, case and white space |
| Compile.CanonicalRolesAgain | internal/api/authz_policy_bundle_runtime.go:526-563 | the compiled grant keeps the role set and compiles to itself |
| Compile.CompiledWellFormed | internal/api/authz_policy_bundle_runtime.go:433-461 | in a compiled policy route actions, grant keys and attribute keys coincide, grants are non-empty and canonical, relation keys are actions, all entries are clean |
| Compile.CompilationDeterministic | internal/api/authz_policy_bundle_runtime.go:433-607 | without keys that clash after cleaning, compilation has one result for every map order |
| Meaning.NewEngine | internal/api/authz_policy_bundle_runtime.go:412-419 | the engine is built from the second normalization of each part |
| Meaning.EngineUnique | internal/api/authz_policy_bundle_runtime.go:412-419 | a well-formed policy has exactly one engine, with its entries unchanged |
| Meaning.DecisionMeaning | internal/api/authz_policy.go:112-221 | every decision allows only what the policy authorizes (scopes agree, action registered, role granted, attributes allow or are silent and relationships allow), and exactly that when no chain is hidden |
| Meaning.UnknownActionDenied | internal/api/authz_policy.go:112-221 | an action the deciding policy does not register is never allowed |
| Meaning.AllowedStaysInScope | internal/api/authz_evaluators.go:42-62 | an allowed request whose subject and resource name tenants, or workspaces, names the same one for both |
| Meaning.AllowHasGrounds | internal/api/authz_policy.go:112-221 | what stands behind every allow, in the request's own fields: no other tenant or workspace, a granted role, and attribute conditions that allow or tuples that lead from the subject to the resource |
| Meaning.DecidingStage | internal/api/authz_policy.go:112-221 | which stage decides: scopes first, then roles, then attribute conditions with an opinion, then relationship paths, then the default denial |
| Meaning.BundleMeaning | internal/api/authz_policy_bundle_runtime.go:433-607 | compiling preserves what the author of a bundle wrote: the compiled policy authorizes a request exactly when the written bundle does |
| Meaning.MoreGrantsAllowMore | internal/api/authz_evaluators.go:102-118 | growing grants keeps every reachable allow, at the same stage |
| Meaning.MoreRolesAllowMore | internal/api/authz_evaluators.go:102-153 | growing the subject's roles keeps every reachable allow, at the same stage, hidden chains or not |
| Compat.IsLegacyPolicy | internal/api/authz_policy_bundle_runtime.go:316-334 | true exactly for the compiled former built-in bundle |
| Compat.LegacyGrantsExact | internal/api/authz_policy_bundle_runtime.go:316-351 | what the former bundle granted on its three actions, and that it differs from today's in nothing else |
| Compat.SameRoleSet | internal/api/authz_policy_bundle_runtime.go:353-367 | compares role lists as multisets |
| Compat.UpgradeLegacyRoleGrants | internal/api/authz_policy_bundle_runtime.go:336-351 | in place, actions still carrying exactly the former grant get the current one; nothing else changes |
| Compat.UpgradeIsExact | internal/api/authz_policy_bundle_runtime.go:336-351 | upgrading the compiled legacy bundle yields exactly the compiled built-in, and grants only grow |
| Compat.UpgradeAllowsMore | internal/api/authz_policy_bundle_runtime.go:292-351 | nothing the legacy policy could allow is denied after the upgrade |
| Compat.OverlayCompatibility | internal/api/authz_policy_bundle_runtime.go:369-410 | the in-place overlay adds exactly the missing shipped routes the fallback has, with the missing entries of their actions, and leaves the fallback's maps alone |
| Compat.AddFallbackEntry | internal/api/authz_policy_bundle_runtime.go:398-407 | one overlaid route adds its registry entry and only the missing entries of its action |
| Compat.OverlayEntry | internal/api/authz_policy_bundle_runtime.go:385-408 | a registered action keeps its grants, conditions and relationship paths; the only thing it can gain is paths it did not have |
| Compat.OverlayAddsExactly | internal/api/authz_policy_bundle_runtime.go:369-410 | exactly what the overlay adds: the listed routes that only the fallback has, each with the fallback's entries for its action where the base has none |
| Compat.OverlayWellFormed | internal/api/authz_policy_bundle_runtime.go:369-410 | the overlay keeps policies well-formed and every route they had |
| Compat.OverlayExact | internal/api/authz_policy_bundle_runtime.go:369-410 | the overlay changes no decision on registered actions exactly when the attribute policy of every action that gains relationship paths is decisive: `OnNoMatch` is not `no_op`, or `AnyOf` is empty, or some clause has no condition |
| Compat.OverlayPreserves | internal/api/authz_policy_bundle_runtime.go:369-410 | one direction of it: when those policies are decisive no decision on a registered action changes, with or without a relationship store |
| Compat.BlankFallsThrough | internal/api/authz_evaluators.go:243-285 | an attribute policy that is not decisive lets a blank request with the granted roles fall through to the relationship stage |
| Compat.OverlayChanges | internal/api/authz_policy_bundle_runtime.go:369-410 | the other direction: a request for such an action that falls through is denied by default before and cannot be after |
| Compat.OverlayKeeps | internal/api/authz_policy_bundle_runtime.go:369-410 | the overlay keeps every entry the base has |
| Compat.ShippedOverlaySafe | internal/api/authz_policy_bundle_runtime.go:299-309 | the shipped overlay satisfies the condition for every base policy |
| Resolver.CacheKeyInjective | internal/api/authz_policy_bundle_runtime.go:279-287 | keys determine the cleaned set name, the number and the cleaned checksum, even for checksums with bars |
| Resolver.CacheKeyNeverBlank | internal/api/authz_policy_bundle_runtime.go:279-280 | the guard against a blank key never fires |
| Resolver.RuntimeResolver.constructor | internal/api/authz_policy_bundle_runtime.go:81-97 | a new resolver has an empty cache and its own fallback maps |
| Resolver.RuntimeResolver.CompileFresh | internal/api/authz_policy_bundle_runtime.go:288-309 | compile, upgrade, overlay into fresh maps: succeeds exactly on accepted text, and writes to no map that existed before |
| Resolver.RuntimeResolver.CompiledVersion | internal/api/authz_policy_bundle_runtime.go:278-314 | one call that nothing overlaps, on values, is a hit, a remembered miss or a failure; only the key table changes |
| Resolver.ProducesWellFormed | internal/api/authz_policy_bundle_runtime.go:288-309 | the uncached pipeline produces well-formed policies |
| Resolver.ProducesOne | internal/api/authz_policy_bundle_runtime.go:288-309 | the pipeline has one result only, when the bundle's keys do not clash |
| Resolver.LegacyVersionIsCurrent | internal/api/authz_policy_bundle_runtime.go:288-309 | a persisted copy of the former built-in bundle is served as exactly the current built-in policy |
| Resolver.CustomVersionKept | internal/api/authz_policy_bundle_runtime.go:292-309 | every policy the pipeline can produce for a bundle that is not the legacy one still holds every route, grant, condition and path the bundle compiles to |
| Resolver.CacheTransparentExactly | internal/api/authz_policy_bundle_runtime.go:278-314 | for any set of versions, and however their calls overlap, every sequence of calls returns only what the uncached pipeline could, exactly when equal keys mean equal products |
| Resolver.ComputedChecksumsTell | internal/db/store.go:1661-1665 | checksums computed from the bundles meet that condition, as far as the digest tells bundles apart |
| Resolver.NumbersTell | internal/api/authz_policy_bundle_runtime.go:279 | so do the versions of one store, whatever their checksums, by set and number |
| Resolver.ReusedKeyIsStale | internal/api/authz_policy_bundle_runtime.go:278-314 | a second version under a used key gets the first one's policy |
| Rollouts.NormalizeRuntimeRollout | internal/api/authz_policy_bundle_runtime.go:201-229 | the runtime form of a stored rollout: unknown modes disabled, canary outside 1..100 read as 100, lists cleaned and sorted |
| Rollouts.NormalizeVersions | internal/api/authz_policy_bundle_runtime.go:255-276 | the loop computes the canonical version list |
| Rollouts.NormalizeAllowlist | internal/api/authz_policy_bundle_runtime.go:231-253 | trimmed, without repeats, sorted |
| Rollouts.AppendValidatedVersion | internal/api/authz_policy_rollback.go:162-181 | the canonical list with the target added when positive |
| Rollouts.CanonicalVersionsExact | internal/api/authz_policy_bundle_runtime.go:255-276 | the ascending duplicate-free list of exactly the positive entries |
| Rollouts.CanarySticky | internal/api/authz_middleware.go:524-561 | raising a stored canary from p to q never moves a request back, for any hash, exactly when p is positive or q is at an end of the range |
| Rollouts.BucketsTargeted | internal/api/authz_middleware.go:547-567 | exactly p of the 100 buckets are inside a canary of p percent |
| Rollouts.TargetedExactly | internal/api/authz_middleware.go:524-561 | exactly which requests a stored rollout targets, in terms of its lists as written: those both allowlists admit, inside the canary |
| Rollouts.TargetedByFields | internal/api/authz_middleware.go:524-561 | and in the request's own fields: the resource's tenant and workspace, else the subject's, else the context's, against the lists, and the bucket of the seed against the percentage |
| Rollouts.SeedFields | internal/api/authz_middleware.go:547-560 | the seed of a bucket, split at its bars, is the set, the scope, the subject, the action and the resource, in this order and trimmed |
| Rollouts.AllowlistAdmits | internal/api/authz_middleware.go:569-576 | a written allowlist admits everyone when it names nobody, and else those it names, before and after normalization |
| Rollouts.RolloutSeesCheckedScope | internal/api/authz_middleware.go:532-539 | for a request without a scope conflict, rollouts look at the tenant and workspace that isolation checked |
| Rollouts.CleanRolloutTwice | internal/db/store.go:1676-1768 | a stored row, written again, is stored unchanged |
| Rollouts.RowAccepted | internal/db/store.go:1676-1725 | exactly which rollout rows can be stored, as written |
| Rollouts.RowStored | internal/db/store.go:1676-1768 | and what is stored of them, field by field |
| Rollouts.RuntimeRow | internal/api/authz_policy_bundle_runtime.go:201-229 | the runtime form keeps both pointers, the known modes and the positive versions |
| Rollouts.SetIdExact | internal/db/store.go:2993-3002 | which names a policy set can have |
| Rollouts.WrittenReadBack | internal/db/memory.go:1647-1707 | a row is written exactly when it can be stored and its set and versions exist, and is then read back under every spelling of its set's name; no other row moves |
| Rollouts.VersionReadBack | internal/db/memory.go:1576-1607 | a stored version is read back under every spelling of its set's name, and no other read changes |
| Rollouts.ReadFails | internal/db/memory.go:1585-1607 | a read fails exactly while the store fails it or when it asks for an impossible name or number, and is never taken for a missing row |
| Runtimes.LoadVersion | internal/api/authz_policy_bundle_runtime.go:150-182 | a pointer loads its stored version through the cache; missing rows and uncompilable bundles are passed over, failing reads are errors |
| Runtimes.Resolve | internal/api/authz_policy_bundle_runtime.go:112-199 | the runtime of a request: built-in without a store or row, else active and candidate as loaded |
| Runtimes.AuthorizeTargets | internal/api/authz_middleware.go:717-798 | without an auth context everything passes; a runtime that does not resolve is an error; else a batch passes exactly through loaded and allowed targets, each decided by its own choice of engine, is refused at the first denied one, and fails at the first that cannot be loaded or decided |
| Serving.LoadExact | internal/api/authz_policy_bundle_runtime.go:150-182 | where the cache tells a scope's versions apart, a pointer loads a product of the version it names exactly when that version is stored and compiles |
| Serving.ResolvedExactly | internal/api/authz_policy_bundle_runtime.go:112-199 | then the resolved runtime runs, as active and as candidate engine, exactly the policies its row's pointers stand for, the built-in one where the active version cannot be used |
| Serving.ChosenExactly | internal/api/authz_middleware.go:336-349 | the chosen engine runs the intended policy, the candidate's exactly when the mode is enforce, the request is targeted and the candidate is usable and validated |
| Serving.ShadowedExactly | internal/api/authz_middleware.go:424-428 | a request is shadowed exactly when the mode is shadow, it is targeted, and the candidate is usable and validated; the shadow runs the candidate's policy |
| Rollback.PolicyStore.UpsertRollout | internal/db/memory.go:1647-1683 | a rollout is stored, cleaned, exactly when it is valid and names known versions; otherwise the state stays |
| Rollback.RollbackPolicy | internal/api/authz_policy_rollback.go:48-111 | the response and the whole new state of a rollback, for every error branch |
| Rollback.RollbackSucceedsExactly | internal/api/authz_policy_rollback.go:48-111 | a rollback succeeds exactly when the target is a readable stored version that compiles, the row can be read and written, and the set exists |
| Rollback.RollbackAnswers | internal/api/authz_policy_rollback.go:48-111 | and exactly which error a failing one answers with |
| Rollback.RollbackReports | internal/api/authz_policy_rollback.go:85-111 | what a successful one reports, in terms of the row it found |
| Rollback.RequestedSetExact | internal/api/authz_policy_rollback.go:53-56 | a blank request means the default set, any other name is trimmed |
| Rollback.RollbackLeaves | internal/api/authz_policy_rollback.go:89-103 | a rollback that nothing overlaps and that succeeds changes only the set's row, which names the target alone and keeps earlier validated versions beside it |
| Rollback.AloneLands | internal/api/authz_policy_rollback.go:89-111 | a handler that nothing overlaps ends with the write of `RollbackLands` for the row it finds, or changes nothing |
| Rollback.LandingKeepsExactly | internal/api/authz_policy_rollback.go:72-103 | when handlers overlap, a rollback's write keeps every validated version of the row it replaces exactly when the row its handler read earlier already named them, or they are the target |
| Runs.PublishExact | internal/db/memory.go:1535-1580 | exactly which versions can be published: of a known set, under its cleaned name, with a number of their own |
| Runs.PublishedReadBack | internal/db/memory.go:1535-1607 | a published version is read back in its scope only and under every spelling of the set's name, and nothing else moves |
| Runs.RunKeeps | internal/api/authz_policy_bundle_runtime.go:278-314 | in every run, started on any stored versions, versions stay as they are in every scope and every cache entry was produced for a stored version with its key |
| Runs.StepKeeps | internal/api/authz_policy_bundle_runtime.go:278-314 | no event undoes that invariant, and none removes or rewrites a version |
| Runs.RowStays | internal/api/authz_policy_rollback.go:89-111 | the rolled-back row stays until an event replaces it |
| Runs.HitsFaithful | internal/api/router.go:415-417 | in every reachable state a cache hit is faithful in every scope, when equal keys across scopes mean equal products |
| Runs.OneScopeTells | internal/api/authz_policy_bundle_runtime.go:279-287 | with a single scope that condition always holds, whatever the checksums |
| Runs.SharedChecksumCrossesScopes | internal/db/store.go:1661-1664 | two scopes with different first versions under one supplied checksum break the condition, and in such a run a request after a rollback in one scope is served the other scope's policy |
| Runs.ServedExactly | internal/api/authz_middleware.go:336-349 | in any reachable state where keys tell, the engine that decides a request runs a product of the stored candidate exactly when the mode is enforce, the request is targeted, and the candidate compiles and is validated; otherwise a product of the stored active version, or the built-in policy when that version cannot be used |
| Runs.ServedWithoutRow | internal/api/authz_policy_bundle_runtime.go:118-146 | without a row the built-in policy decides every request and nothing is shadowed |
| Runs.ServedDecides | internal/api/authz_middleware.go:336-355 | so a served request is allowed only if the intended policy authorizes it, and exactly then when no chain is hidden |
| Runs.RowsStaySound | internal/db/memory.go:1647-1683 | in every run whose initial rows are so, rows stay as the write path leaves them and name stored versions, in every scope |
| Runs.EnforceRowsValidated | internal/db/store.go:1705-1716 | in such runs a stored enforce row names only stored, validated versions |
| Runs.EnforceDecidesValidated | internal/api/authz_middleware.go:336-349 | under the enforce mode the engine that decides a request, targeted or not, runs a product of a stored, validated version, or the built-in policy |
| Runs.EffectiveVersionExact | internal/api/authz_policy_rollback.go:153-160 | the version a rollback would report as previously effective is the one that decides targeted requests, exactly when it is usable |
| Runs.RollbackGoverns | internal/api/authz_policy_rollback.go:58-111 | from a successful rollback until its scope's row is next replaced, every served request of the scope runs exactly a product of the target version, and nothing is shadowed, whatever preceded, in runs from any stored state, across restarts, and when other rollbacks overlap it |
| Runs.RollbackDecides | internal/api/authz_policy_rollback.go:58-111 | so such a request is allowed only if the target's policy authorizes it, and exactly then when no chain is hidden |
| Runs.RollbackReachable | internal/api/authz_policy_rollback.go:48-111 | runs with a successful rollback and a request it governs exist, for every text that compiles |
| Runs.OverlapLosesVersion | internal/api/authz_policy_rollback.go:72-103 | two rollbacks that both read the row before either wrote it: in such a run the second loses the version the first validated |
| Runs.SimulationAgrees | internal/api/authz_simulation.go:209-247 | between restarts, simulating a version and serving it, as active version or as candidate and in either order, use one and the same policy |
| Runs.SimulationAgreesAcrossRestarts | internal/api/authz_simulation.go:209-247 | across restarts too, when the bundle's keys do not clash |
| Roles.PolicyRoles | internal/api/authz_middleware.go:942-1020 | the inserts and deletes on the role set end in the ascending listing of exactly the roles in closed form, legacy API keys included |
| Roles.RolesOfMember | internal/api/authz_middleware.go:979-988 | deleting the named roles and adding the generic and the active role leaves exactly those two |
| Roles.CollectClaims | internal/api/authz_middleware.go:965-971 | claims add exactly the recognized cleaned names |
| Roles.ClaimsDoNotMatter | internal/api/authz_middleware.go:979-988 | with a membership row the roles are exactly the generic role and the active member role, and requests that differ in claims, scopes and API keys are decided alike by every engine |
| Roles.OwnerExact | internal/api/authz_middleware.go:942-1020 | who acts as an owner: active owners where membership is looked up, claimed owners only where it cannot be |
| Roles.OnlyOwnersOwn | internal/api/authz_middleware.go:74-115 | under a policy granting "tenancy.owner" to owners only, every reachable allow of it belongs to an active owner |
| Roles.NonMemberRoles | internal/api/authz_middleware.go:989-997 | the exact roles of a user without a membership row, in terms of scopes and claims |
| Roles.MachineRoles | internal/api/authz_middleware.go:942-1020 | the exact roles of a principal whose membership is not looked up, in terms of scopes, claims and API key |
| Roles.LookupExact | internal/api/authz_middleware.go:1022-1050 | whose membership is looked up, and under which names |
| Roles.MemberActsAs | internal/api/authz_middleware.go:972-988 | the exact roles after a membership row is found or its lookup failed |
| Roles.ScopeExact | internal/api/router.go:7183-7196 | which role each scope gives, and that no scope gives more |
| Roles.AdminScopeDropped | internal/api/authz_middleware.go:989-997 | such a user's machine scope "admin" is dropped with the workspace role of the same name |
| Roles.ScopesInclude | internal/api/router.go:7183-7196 | stronger scopes include the weaker ones |
| Roles.NoRolesExactly | internal/api/authz_middleware.go:998-1019 | exactly when a request acts without any role |
| Roles.ApiKeyWrites | internal/api/authz_middleware.go:1007-1019 | an API key writes exactly when nothing else names a role and it is a listed write key outside scoped mode |
| Webhook.StepKeeps | internal/api/auth_routes.go:1269-1370 | every step of every delivery keeps the token fence, the meaning of answers and the idleness of finished holders |
| Webhook.RunInv | internal/api/auth_routes.go:1269-1370 | so does every interleaved run |
| Webhook.EffectAnswers | internal/api/auth_routes.go:1324-1369 | a delivery that does not fail transiently is answered with acceptance or a final rejection |
| Webhook.ApplyExact | internal/api/auth_routes.go:1324-1369 | exactly which payloads and service results fail transiently, are rejected for good or are accepted, and which of them count as applied |
| Webhook.InsertExact | internal/db/postgres_enterprise_auth.go:638-686 | the first statement claims an event without a row, confirmed or not, and otherwise moves nothing |
| Webhook.ReclaimExact | internal/db/postgres_enterprise_auth.go:687-708 | the second takes over an event that has been processing for more than 300 seconds, and none more recent or processed |
| Webhook.BoundaryOpen | internal/db/postgres_enterprise_auth.go:687-708 | at exactly 300 seconds both outcomes are possible, as the two ledgers differ there |
| Webhook.ReadExact | internal/db/postgres_enterprise_auth.go:709-733 | the third answers from the row it finds, and without one starts over, three times in all, under a new token |
| Webhook.CompleteExact | internal/db/postgres_enterprise_auth.go:735-757 | completion marks the event processed for the holder of its claim only |
| Webhook.ReleaseExact | internal/db/postgres_enterprise_auth.go:759-778 | the rollback deletes the row for the holder of its claim only |
| Webhook.SweepExact | internal/db/postgres_enterprise_auth.go:780-791 | the sweep removes exactly the rows older than thirty days |
| Webhook.StepTallies | internal/api/auth_routes.go:1269-1370 | every claim is used up by at most one application or release, every insert follows the loss of a row |
| Webhook.AcknowledgedIsSettled | internal/api/auth_routes.go:1269-1370 | in every interleaving a success answer, "duplicate" included, is given only after the event's effect was applied or reached a final outcome |
| Webhook.ProcessedStays | internal/db/postgres_enterprise_auth.go:638-791 | `processed` is never undone, but for the retention sweep |
| Webhook.OnlyHolderMoves | internal/db/postgres_enterprise_auth.go:638-791 | a row moves only by a takeover of a stale claim, by the holder of its current token, or by the sweep |
| Webhook.SupersededStaysHarmless | internal/db/postgres_enterprise_auth.go:735-778 | in every run a delivery that lost its claim never holds it again, and neither its completion nor its release changes the ledger |
| Webhook.ReleasedIsClaimable | internal/api/auth_routes.go:1313-1319 | in every run, after a landed rollback of a transient failure by the holder the event has no row until its next insert, and that insert claims it |
| Webhook.StaleIsTakenOver | internal/db/postgres_enterprise_auth.go:687-708 | from every reachable state with a claim older than five minutes the run can be continued by a new delivery that takes the event over and is about to apply it |
| Webhook.AppliedAtMostOnce | internal/api/auth_routes.go:1269-1370 | in every run an event's effect is applied at most once more than its row was taken over as stale or swept |
| Webhook.BoundAttained | internal/api/auth_routes.go:1269-1370 | and for every number of takeovers some run applies it exactly that often, so an effect can be applied twice |
| Shadow.CountersCount | internal/api/authz_middleware.go:414-454 | in every interleaving each counter is, modulo 2^64, the number of requests past its increment; divergences never exceed evaluations below the wrap-around |
| Shadow.StepKeeps | internal/api/authz_middleware.go:424-453 | every atomic step keeps the counters exact and the tickets gapless |
| Shadow.EnterExact | internal/api/authz_middleware.go:433-436 | entering counts one evaluation, with wrap-around at 2^64 |
| Shadow.DecideExact | internal/api/authz_middleware.go:437-449 | an evaluation counts as a divergence exactly when the candidate decided and differs in verdict or stage |
| Shadow.PublishExact | internal/api/authz_middleware.go:450-453 | the published rate is the divergences counted so far over the request's own count, unless that wrapped around to zero |
| Shadow.RateBounds | internal/api/authz_middleware.go:452 | the quotient is at most one exactly when the count is at most the total |
| Shadow.RateExact | internal/api/authz_middleware.go:428-453 | the published rate is at most one exactly when the later requests that already diverged are no more than the earlier ones that did not |
| Shadow.RateIsProportion | internal/api/authz_middleware.go:450-453 | in runs whose shadow evaluations do not overlap every published rate lies between zero and one |
| Shadow.OverlapPublishesTwo | internal/api/authz_middleware.go:428-453 | two overlapping evaluations that diverge publish a rate of two |
| Findings.DedupeFindings | internal/api/aws_ai_agent_risk.go:640-660 | the loop over `seen` and `order` yields one merged group per cleaned ID in order of first occurrence |
| Findings.DedupedUpdates | internal/api/aws_ai_agent_risk.go:648-651 | a further finding of a known key changes only that key's entry |
| Findings.MergeAppend | internal/api/aws_ai_agent_risk.go:662-687 | merging a merged group with more findings merges them all |
| Findings.MergedWinner | internal/api/aws_ai_agent_risk.go:662-687 | a merged group has the highest score and the identity of its first highest-scoring finding; confidence and status look only from that finding on |
| Findings.ConfidenceNotMaximal | internal/api/aws_ai_agent_risk.go:670-676 | the confidence of a merged group need not be its highest |
| Findings.MergedEvidence | internal/api/aws_ai_agent_risk.go:667-681 | the evidence of a merged group is its members' evidence, in order |
| Findings.MergedLists | internal/api/aws_ai_agent_risk.go:614-687 | each list of a merged group is the cleaned union of its members' lists of that name, in order of first occurrence |
| Findings.MergedPreview | internal/api/aws_ai_agent_risk.go:619-637 | the preview of a merged group: approval for critical and high severities, the score up to 40 as expected drop, each evidence reference once |
| Findings.GroupExact | internal/api/aws_ai_agent_risk.go:640-660 | findings are merged exactly when they have an ID and it is spelled alike up to case and outer white space |
| Findings.DedupedPrefix | internal/api/aws_agent_identity_detail.go:556 | deduping onto an already deduped list equals deduping everything at once |
| Findings.DedupedTwice | internal/api/aws_ai_agent_risk.go:640-660 | deduping twice equals deduping once |
| Findings.EvidenceConserved | internal/api/aws_ai_agent_risk.go:640-687 | the evidence that leaves is exactly the evidence that came in with an ID |
| Text.TrimExact | internal/api/authz_policy_bundle_runtime.go:489 | trimming removes the white space at both ends and nothing else |
| Text.SpaceExact | internal/api/authz_policy_bundle_runtime.go:489 | what counts as white space, up to Latin-1 |
| Text.CaseExact | internal/api/authz_policy_bundle_runtime.go:489-503 | changing case maps each ASCII letter to its partner and nothing else |
| Text.StringLeExact | internal/api/authz_policy_bundle_runtime.go:554 | the order of sorted lists is the lexicographic one |
| Lists.DedupeStrings | internal/api/aws_baseline.go:562-580 | trimmed non-blank entries in order of first occurrence |
| Lists.DedupePrefix | internal/api/aws_baseline.go:562-580 | cleaning a prefix first changes nothing |
| Blast.FlattenPath | internal/api/aws_blast_radius.go:502-531 | the nested loops lay out one branch per role: the role, then the agent before every target |
| Blast.Relationships | internal/api/aws_blast_radius.go:634-673 | the relationships are those of all adjacent allowed pairs with named ends, finding by finding |
| Blast.PathRelationships | internal/api/aws_blast_radius.go:637-657 | the same for one finding's path |
| Blast.EdgesExact | internal/api/aws_blast_radius.go:634-682 | exactly which relationships a path yields: one for each two adjacent named steps, on agent paths only role to agent and agent to target |
| Blast.AgentFindingExact | internal/api/aws_blast_radius.go:675-682 | which risk types, in any spelling, mark an agent path |
| Blast.RiskTypeExact | internal/api/aws_blast_radius.go:415-440 | the risk type of a record, from its status in any spelling and its caveats |
| Blast.FindingOf | internal/api/aws_blast_radius.go:415-471 | the path and risk type of an agent access record |
| Blast.RoleNodesExact | internal/api/aws_blast_radius.go:415-420 | the roles of a record: those it names as backing or declared, and the agent itself when it names none |
| Blast.PathRecoversTree | internal/api/aws_blast_radius.go:502-531 | for any roles, targets and names, the relationships read off the flattened path are exactly the tree's edges; none leads back from a target or across roles |
| Blast.BranchEdges | internal/api/aws_blast_radius.go:516-529 | one branch gives the role's edge and one edge per target |
| Blast.AgentEdges | internal/api/aws_blast_radius.go:675-682 | which of the five possible transitions of an agent path survive |
| Blast.TreeSize | internal/api/aws_blast_radius.go:634-682 | with all nodes named there is one edge per role and one per role and target |
| Blast.RecordRelationships | internal/api/aws_blast_radius.go:415-471 | every access record of a named agent yields exactly its tree, none lost |
| Blast.RiskTypesAreAgentPaths | internal/api/aws_blast_radius.go:675-682 | every risk type an agent record can get is one the transition filter recognizes |
| Severity.MostSevere | internal/api/aws_advisory_authorization.go:320-328 | the loop computes the left fold that the lemmas below characterize |
| Severity.SelectedIsFirstKept | internal/api/aws_advisory_authorization.go:320-328 | the pick is the first entry that carries an ID or comes last and that no later entry outranks |
| Severity.SelectedExact | internal/api/aws_advisory_authorization.go:320-328 | the pick has the highest rank exactly when an entry of that rank carries an ID or comes last |
| Severity.RankMirrorsClassify | internal/api/aws_advisory_authorization.go:507-568 | for known states the rank order and the classifier agree |
| Severity.ClassifyExact | internal/api/aws_advisory_authorization.go:533-568 | the classifier, outcome by outcome |
| Severity.StrictestExactly | internal/api/aws_advisory_authorization.go:502-568 | for any states and IDs, the pick classifies as the strictest of all exactly when some kept entry does, one with a known state unless no kept entry has one |
| Severity.KnownStrictestExactly | internal/api/aws_advisory_authorization.go:502-568 | over known states, exactly when some entry of the strictest outcome carries an ID or comes last and no later entry outranks it |
| Severity.SelectedIsStrictest | internal/api/aws_post_remediation_verification.go:599-611 | over the entries the only producer emits, with an ID and a known state, the pick is always the strictest |
| Severity.OrderDoesNotMatter | internal/api/aws_advisory_authorization.go:320-328 | with IDs, the outcome depends on which entries there are, not on their order |
| Severity.AlarmQuarantines | internal/api/aws_advisory_authorization.go:507-545 | an engaged kill switch or a failed verification with an ID quarantines the case |
| Severity.BlankIdDisplaced | internal/api/aws_advisory_authorization.go:320-328 | an entry without an ID, which the only producer never emits, is displaced even when it reports an engaged kill switch |
| Severity.UnknownStateUnderstated | internal/api/aws_advisory_authorization.go:507-568 | an unknown state, which the only producer never emits, ranks below a verified one though the case alone may classify it as stricter |

## Left out

- Walk.WalkDecidesChain: complete only with untruncated listings and unambiguous keys. The equivalence for keys is over sets of objects, not per store: which of two objects survives in one store depends on listing and map order.
- Walk.EvaluatePath: one walk sees one snapshot of the tuples and one clock, and rows arrive in listing order; the reason text of a denial is not modelled.
- Abac.Evaluate: attribute maps hold no two keys equal up to case, since their producers write lower-case keys; the case-insensitive lookup then has one answer.
- Text: letter case is ASCII and white space is Latin-1; Unicode folding and wider white space are not modelled.
- Compile.CompileText: the JSON decoder is an arbitrary function from text to bundles.
- Compat.UpgradeIsExact: the built-in bundle is any bundle with the stated facts (clean action names, the former grants contained in the current ones), not the literal tables.
- Compat.ShippedOverlaySafe: the built-in route table is reduced to the facts `Compat.ShippedFacts` names.
- Resolver.RuntimeResolver.CompiledVersion: the method runs alone; overlapping calls, with two misses that both store a result, are covered by the transparency theorem (`Resolver.CacheTransparentExactly`) but not by `Runs`. A failed construction and a nil resolver are not modelled.
- Runtimes.Resolve: its reads of the row and of the two versions are one step, so a row written between them is not modelled.
- Runs.RunKeeps: one server process, and each event is one step (of a rollback, its write); the scopes of a run are given; version numbers are chosen by the publisher, who may choose any, rather than assigned by the store; policy sets are never deleted.
- Rollback.RollbackPolicy: the method runs alone, and `Rollback.RollbackLeaves` is about that case. In `Runs` a rollback is its write, for a row seen at any earlier time, so overlapping rollbacks are covered. Actor, time stamps, the policy event and the audit record are not modelled.
- Runs.RowsStaySound: rows already stored when a run begins must be as the write path leaves them; rows written by other means are not modelled.
- Rollouts.CanarySticky: the FNV hash is any function into 0..99; the lemma is about a request the allowlists admit.
- Runtimes.AuthorizeTargets: each target's input, or the failure to build it or to load its attributes, is given; the inputs do not depend on earlier targets.
- Roles.PolicyRoles: the membership lookup is an arbitrary function of the session kind, subject and scope; a nil list and an empty list are the same.
- Roles.OnlyOwnersOwn: of the built-in grants only the one for "tenancy.owner" is used.
- Webhook.AppliedAtMostOnce: claim tokens are fresh numbers, as random tokens are taken to be. Exactly at five minutes the in-memory and the SQL ledger differ, and the model allows both. The in-memory ledger keeps the claim time on completion, and its claim and sweep are one step.
- Webhook.StepKeeps: the effects on users and sessions are one step each with an arbitrary result; signatures and payload decoding are not modelled.
- Shadow.CountersCount: both counters exist, as the middleware always passes them; metrics other than the rate are not modelled, and the rate is a real number.
- Findings.DedupeFindings: identifiers and texts of the remediation preview are not modelled; fields copied as a block are one opaque field.
- Blast.Relationships: cross-account edges, labels, accounts and regions; the evidence reference is given.
- Severity.RankMirrorsClassify: rule names, rationales and confidences of the classifier; selecting verifications by target.
- The role evaluator that allows on a grant (internal/api/authz_evaluators.go:84-100): the central engine does not use it.
- Simulation input normalization, HTTP handlers, audit records and metrics: plumbing around the modelled calls.
- AWS collectors, inventories and scoring constants: copying and counting.
