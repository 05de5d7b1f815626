/** What a compiled policy means: the engine built from it allows a request exactly when
    scopes agree, a role is granted, and attributes or relationships admit it. */
module Meaning {
  import opened Text
  import opened Lists
  import opened Policy
  import opened Engine
  import Rbac
  import Abac
  import Walk
  import Rebac
  import Compile

  const LOOKUP_LIMIT := 200

  // ----- engine construction -----

  /** An engine the constructor can build from a compiled policy. */
  ghost predicate EngineFor(store: Option<Walk.Store>, c: Compiled, engine: Engine) {
    && engine.isolation == Some(Isolation)
    && engine.roleGrants.Some? && engine.roleGrants.value.RoleGate?
    && Rekeyed(c.roles, engine.roleGrants.value.actionRoles, Rbac.GrantEntry)
    && engine.attributeConditions.Some? && engine.attributeConditions.value.AttributeRules?
    && Rekeyed(c.attributes, engine.attributeConditions.value.attributes, Abac.CleanEntry)
    && engine.relationships.Some? && engine.relationships.value.RelationRules?
    && engine.relationships.value.store == store && engine.relationships.value.limit == LOOKUP_LIMIT
    && Rekeyed(c.relations, engine.relationships.value.relations, Rebac.CleanEntry)
  }

  method NewEngine(store: Option<Walk.Store>, c: Compiled) returns (engine: Engine)
    ensures EngineFor(store, c, engine)
  {
    var actionRoles := Rbac.NormalizeGrants(c.roles);
    var attributes := Abac.NormalizePolicies(c.attributes);
    var relations := Rebac.NormalizePolicies(c.relations);
    engine := Engine(
      Some(Isolation), Some(RoleGate(actionRoles)), Some(AttributeRules(attributes)),
      Some(RelationRules(store, relations, LOOKUP_LIMIT)));
  }

  /** The engine of a well-formed policy, entry by entry. */
  ghost function EngineOf(store: Option<Walk.Store>, c: Compiled): Engine {
    Engine(
      Some(Isolation),
      Some(RoleGate(map a | a in c.roles :: Rbac.RoleSet(c.roles[a]))),
      Some(AttributeRules(c.attributes)),
      Some(RelationRules(
        store, map a | a in c.relations && c.relations[a].anyOf != [] :: c.relations[a], LOOKUP_LIMIT)))
  }

  /** The second normalization, in the evaluators' constructors, changes nothing: a
      well-formed policy has one engine. */
  lemma EngineUnique(store: Option<Walk.Store>, c: Compiled, engine: Engine)
    requires Compile.WellFormed(c) && EngineFor(store, c, engine)
    ensures engine == EngineOf(store, c)
  {
    RolesUnique(c, engine.roleGrants.value.actionRoles);
    AttributesUnique(c, engine.attributeConditions.value.attributes);
    RelationsUnique(c, engine.relationships.value.relations);
  }

  lemma CleanKeys(c: Compiled)
    requires Compile.WellFormed(c)
    ensures NormalKeys(c.roles) && NormalKeys(c.attributes) && NormalKeys(c.relations)
  {
    hide Compile.CleanRoles, Compile.CleanAttributes, Compile.CleanRelations, Compile.Actions, Normal;
    forall a | a in c.relations
      ensures a in Compile.Actions(c.routes)
    {
    }
  }

  lemma GrantEntered(c: Compiled, a: string)
    requires Compile.WellFormed(c) && a in c.roles
    ensures Rbac.GrantEntry(c.roles[a]) == Some(Rbac.RoleSet(c.roles[a]))
  {
    hide Compile.CanonicalRoles, Rbac.RoleSet, Compile.CleanAttributes, Compile.CleanRelations;
    Compile.CanonicalRolesList(c.roles[a]);
    NoElements(c.roles[a]);
  }

  lemma RolesUnique(c: Compiled, actionRoles: map<string, set<string>>)
    requires Compile.WellFormed(c) && Rekeyed(c.roles, actionRoles, Rbac.GrantEntry)
    ensures actionRoles == map a | a in c.roles :: Rbac.RoleSet(c.roles[a])
  {
    hide Compile.WellFormed, Rekeyed, Rbac.GrantEntry;
    CleanKeys(c);
    RekeyedNormal(c.roles, actionRoles, Rbac.GrantEntry);
    forall a | a in c.roles
      ensures Rbac.GrantEntry(c.roles[a]) == Some(Rbac.RoleSet(c.roles[a]))
    {
      GrantEntered(c, a);
    }
  }

  lemma AttributesUnique(c: Compiled, attributes: map<string, AttributePolicy>)
    requires Compile.WellFormed(c) && Rekeyed(c.attributes, attributes, Abac.CleanEntry)
    ensures attributes == c.attributes
  {
    hide Rekeyed, Abac.CleanPolicy, Compile.CleanRoles, Compile.CleanRelations, NormalKeys;
    CleanKeys(c);
    RekeyedNormal(c.attributes, attributes, Abac.CleanEntry);
  }

  lemma RelationsUnique(c: Compiled, relations: map<string, RelationPolicy>)
    requires Compile.WellFormed(c) && Rekeyed(c.relations, relations, Rebac.CleanEntry)
    ensures relations == map a | a in c.relations && c.relations[a].anyOf != [] :: c.relations[a]
  {
    hide Rekeyed, Rebac.CleanPaths, Compile.CleanRoles, Compile.CleanAttributes, NormalKeys;
    CleanKeys(c);
    RekeyedNormal(c.relations, relations, Rebac.CleanEntry);
  }

  /** And it has one. */
  lemma EngineExists(store: Option<Walk.Store>, c: Compiled)
    requires Compile.WellFormed(c)
    ensures EngineFor(store, c, EngineOf(store, c))
  {
    RolesExist(c);
    AttributesExist(c);
    RelationsExist(c);
    hide Rekeyed, Compile.WellFormed, Rbac.RoleSet;
  }

  lemma RolesExist(c: Compiled)
    requires Compile.WellFormed(c)
    ensures Rekeyed(c.roles, map a | a in c.roles :: Rbac.RoleSet(c.roles[a]), Rbac.GrantEntry)
  {
    CleanKeys(c);
    RekeyedExists(c.roles, Rbac.GrantEntry);
    hide Rekeyed, Rbac.GrantEntry, Compile.WellFormed;
    RolesUnique(c, map a | a in c.roles && Rbac.GrantEntry(c.roles[a]).Some? :: Rbac.GrantEntry(c.roles[a]).value);
  }

  lemma AttributesExist(c: Compiled)
    requires Compile.WellFormed(c)
    ensures Rekeyed(c.attributes, c.attributes, Abac.CleanEntry)
  {
    CleanKeys(c);
    RekeyedExists(c.attributes, Abac.CleanEntry);
    hide Rekeyed, Abac.CleanEntry, Compile.WellFormed;
    AttributesUnique(
      c, map a | a in c.attributes && Abac.CleanEntry(c.attributes[a]).Some? :: Abac.CleanEntry(c.attributes[a]).value);
  }

  lemma RelationsExist(c: Compiled)
    requires Compile.WellFormed(c)
    ensures Rekeyed(
      c.relations, map a | a in c.relations && c.relations[a].anyOf != [] :: c.relations[a], Rebac.CleanEntry)
  {
    CleanKeys(c);
    RekeyedExists(c.relations, Rebac.CleanEntry);
    hide Rekeyed, Rebac.CleanEntry, Compile.WellFormed;
    RelationsUnique(
      c, map a | a in c.relations && Rebac.CleanEntry(c.relations[a]).Some? :: Rebac.CleanEntry(c.relations[a]).value);
  }

  // ----- meaning -----

  ghost predicate RelationsGrant(store: Option<Walk.Store>, c: Compiled, input: Input) {
    var a := Norm(input.action);
    store.Some? && a in c.relations && Rebac.Identified(input)
    && Rebac.Granted(store.value, input, c.relations[a].anyOf)
  }

  /** The declarative reading of a compiled policy. */
  ghost predicate Authorizes(store: Option<Walk.Store>, c: Compiled, input: Input) {
    var a := Norm(input.action);
    && !Rbac.ScopesConflict(input)
    && a in c.roles && a in c.attributes
    && Rbac.HasRole(input.subject.roles, Rbac.RoleSet(c.roles[a]))
    && var o := Abac.PolicyOutcome(input, c.attributes[a]);
       o == Allow || (o == NoOpinion && RelationsGrant(store, c, input))
  }

  ghost predicate ValidTuples(store: Option<Walk.Store>) {
    store.Some? ==> Walk.ValidStore(store.value)
  }

  /** Nothing hides a relationship chain for this request's action. */
  ghost predicate Visible(store: Option<Walk.Store>, c: Compiled, input: Input) {
    var a := Norm(input.action);
    store.Some? && a in c.relations ==>
      Rebac.FullyVisible(store.value, LOOKUP_LIMIT, input, c.relations[a].anyOf)
  }

  lemma RelationStage(store: Option<Walk.Store>, c: Compiled, input: Input, outcome: Outcome)
    requires Compile.WellFormed(c) && ValidTuples(store)
    requires StageSays(EngineOf(store, c), 3, input, outcome)
    ensures outcome == Allow ==> RelationsGrant(store, c, input) && Norm(input.action) in c.roles
    ensures Visible(store, c, input) && RelationsGrant(store, c, input) ==> outcome == Allow
  {
    hide Rebac.PathsMay, Rebac.Granted, Rebac.FullyVisible, Rebac.Identified, Walk.ValidStore, Rebac.CleanPaths, Norm;
    hide Rebac.CleanRelations, Compile.CleanRoles, Compile.CleanAttributes;
    var a := Norm(input.action);
    var rules := EvaluatorAt(EngineOf(store, c), 3).value;
    var reason :| MayReturn(rules, input, Evaluated(outcome, reason));
    if store.Some? && a in c.relations {
      var paths := c.relations[a].anyOf;
      Rebac.CleanPathsReady(paths);
      Rebac.NothingGranted(store.value, input, paths);
      ActionsClean(c, a);
      if paths != [] {
        Rebac.StageExact(store.value, LOOKUP_LIMIT, rules.relations, input, Evaluated(outcome, reason));
      }
    }
  }

  lemma ActionsClean(c: Compiled, a: string)
    requires Compile.WellFormed(c) && a in Compile.Actions(c.routes)
    ensures a != ""
  {
  }

  lemma GateStage(store: Option<Walk.Store>, c: Compiled, input: Input, outcome: Outcome)
    requires Compile.WellFormed(c) && StageSays(EngineOf(store, c), 1, input, outcome)
    ensures var a := Norm(input.action);
        outcome == if a in c.roles && !Rbac.HasRole(input.subject.roles, Rbac.RoleSet(c.roles[a])) then Deny
                   else NoOpinion
  {
    hide Rbac.RoleSet, Rbac.HasRole, Norm;
    var e := EvaluatorAt(EngineOf(store, c), 1).value;
    var reason :| MayReturn(e, input, Evaluated(outcome, reason));
    if Norm(input.action) in c.roles {
      ActionsClean(c, Norm(input.action));
    }
  }

  lemma AttributeStage(store: Option<Walk.Store>, c: Compiled, input: Input, outcome: Outcome)
    requires Compile.WellFormed(c) && StageSays(EngineOf(store, c), 2, input, outcome)
    ensures var a := Norm(input.action);
        outcome == if a in c.attributes then Abac.PolicyOutcome(input, c.attributes[a]) else NoOpinion
  {
    hide Abac.PolicyOutcome, Norm;
    var e := EvaluatorAt(EngineOf(store, c), 2).value;
    var reason :| MayReturn(e, input, Evaluated(outcome, reason));
    if Norm(input.action) in c.attributes {
      ActionsClean(c, Norm(input.action));
    }
  }

  lemma IsolationStage(store: Option<Walk.Store>, c: Compiled, input: Input, outcome: Outcome)
    requires StageSays(EngineOf(store, c), 0, input, outcome)
    ensures outcome == if Rbac.ScopesConflict(input) then Deny else NoOpinion
  {
    hide Rbac.ScopesConflict;
    var e := EvaluatorAt(EngineOf(store, c), 0).value;
    var reason :| MayReturn(e, input, Evaluated(outcome, reason));
  }

  /** The outcomes a decision commits the four stages to. */
  lemma StagesOf(engine: Engine, input: Input, allowed: bool, stage: Stage)
    requires MayDecide(engine, input, allowed, stage)
    ensures forall i: nat :: i < IndexOf(stage) ==> StageSays(engine, i, input, NoOpinion)
    ensures stage != DefaultDeny ==> StageSays(engine, IndexOf(stage), input, if allowed then Allow else Deny)
    ensures stage == DefaultDeny ==> !allowed
  {
  }

  /** Main result: every decision the engine can reach agrees with the declarative
      reading. It never allows more, and allows as much when no chain is hidden. */
  lemma DecisionMeaning(store: Option<Walk.Store>, c: Compiled, input: Input, allowed: bool, stage: Stage)
    requires Compile.WellFormed(c) && ValidTuples(store)
    requires MayDecide(EngineOf(store, c), input, allowed, stage)
    ensures allowed ==> Authorizes(store, c, input)
    ensures Visible(store, c, input) ==> (allowed <==> Authorizes(store, c, input))
  {
    hide StageSays, RelationsGrant, Visible, Rbac.HasRole, Rbac.RoleSet, Rbac.ScopesConflict, Abac.PolicyOutcome;
    hide EngineOf, ValidTuples, Norm, SilentBefore, Compile.CleanRoles, Compile.CleanAttributes;
    hide Compile.CleanRelations;
    var engine := EngineOf(store, c);
    StagesOf(engine, input, allowed, stage);
    var verdict := if allowed then Allow else Deny;
    match stage
    case TenantIsolation =>
      IsolationStage(store, c, input, verdict);
    case RoleGrants =>
      IsolationStage(store, c, input, NoOpinion);
      GateStage(store, c, input, verdict);
    case AttributeConditions =>
      IsolationStage(store, c, input, NoOpinion);
      GateStage(store, c, input, NoOpinion);
      AttributeStage(store, c, input, verdict);
    case Relationships =>
      IsolationStage(store, c, input, NoOpinion);
      GateStage(store, c, input, NoOpinion);
      AttributeStage(store, c, input, NoOpinion);
      RelationStage(store, c, input, verdict);
    case DefaultDeny =>
      AttributeStage(store, c, input, NoOpinion);
      RelationStage(store, c, input, NoOpinion);
  }

  /** Main result: which stage decides. Scopes come first, then roles, then attribute
      conditions with an opinion, then relationship paths where there are any; what nobody
      decides is denied by default. */
  lemma DecidingStage(store: Option<Walk.Store>, c: Compiled, input: Input, allowed: bool, stage: Stage)
    requires Compile.WellFormed(c) && MayDecide(EngineOf(store, c), input, allowed, stage)
    ensures var a := Norm(input.action);
        stage ==
        if Rbac.ScopesConflict(input) then TenantIsolation
        else if a in c.roles && !Rbac.HasRole(input.subject.roles, Rbac.RoleSet(c.roles[a])) then RoleGrants
        else if a in c.attributes && Abac.PolicyOutcome(input, c.attributes[a]) != NoOpinion then AttributeConditions
        else if store.Some? && a in c.relations && c.relations[a].anyOf != [] then Relationships
        else DefaultDeny
  {
    hide StageSays, Rbac.HasRole, Rbac.RoleSet, Rbac.ScopesConflict, Abac.PolicyOutcome, EngineOf, Norm, SilentBefore;
    hide Compile.WellFormed;
    StagesOf(EngineOf(store, c), input, allowed, stage);
    var verdict := if allowed then Allow else Deny;
    IsolationSays(store, c, input, stage, verdict);
    if IndexOf(stage) >= 1 {
      GateStage(store, c, input, if stage == RoleGrants then verdict else NoOpinion);
    }
    if IndexOf(stage) >= 2 {
      AttributeStage(store, c, input, if stage == AttributeConditions then verdict else NoOpinion);
    }
    if IndexOf(stage) >= 3 {
      RelationSays(store, c, input, if stage == Relationships then verdict else NoOpinion);
    }
  }

  lemma IsolationSays(store: Option<Walk.Store>, c: Compiled, input: Input, stage: Stage, verdict: Outcome)
    requires StageSays(EngineOf(store, c), 0, input, if stage == TenantIsolation then verdict else NoOpinion)
    requires verdict != NoOpinion
    ensures stage == TenantIsolation <==> Rbac.ScopesConflict(input)
  {
    hide StageSays, EngineOf, Rbac.ScopesConflict;
    IsolationStage(store, c, input, if stage == TenantIsolation then verdict else NoOpinion);
  }

  /** The relationship stage has an opinion exactly where the action has paths and there is a
      store to walk. */
  lemma RelationSays(store: Option<Walk.Store>, c: Compiled, input: Input, outcome: Outcome)
    requires Compile.WellFormed(c) && StageSays(EngineOf(store, c), 3, input, outcome)
    ensures outcome != NoOpinion <==>
        store.Some? && Norm(input.action) in c.relations && c.relations[Norm(input.action)].anyOf != []
  {
    hide Norm, Rebac.Identified, Rebac.Passed, Compile.CleanRoles, Compile.CleanAttributes, Compile.CleanRelations;
    hide Abac.AllHold, Walk.WalkMay;
    var a := Norm(input.action);
    var rules := EvaluatorAt(EngineOf(store, c), 3).value;
    var reason :| MayReturn(rules, input, Evaluated(outcome, reason));
    if a in c.relations {
      ActionsClean(c, a);
    }
  }

  /** An action the policy does not register is never allowed, whatever the store holds. */
  lemma UnknownActionDenied(store: Option<Walk.Store>, c: Compiled, input: Input, allowed: bool, stage: Stage)
    requires Compile.WellFormed(c) && ValidTuples(store)
    requires Norm(input.action) !in Compile.Actions(c.routes)
    requires MayDecide(EngineOf(store, c), input, allowed, stage)
    ensures !allowed
  {
    DecisionMeaning(store, c, input, allowed, stage);
  }

  /** No decision crosses scopes: an allowed request whose subject and resource name their
      tenants, or workspaces, names the same one for both. */
  lemma AllowedStaysInScope(store: Option<Walk.Store>, c: Compiled, input: Input, stage: Stage)
    requires Compile.WellFormed(c) && ValidTuples(store)
    requires MayDecide(EngineOf(store, c), input, true, stage)
    ensures Trim(input.subject.tenantId) != "" && Trim(input.resource.tenantId) != "" ==>
        Trim(input.subject.tenantId) == Trim(input.resource.tenantId)
    ensures Trim(input.subject.workspaceId) != "" && Trim(input.resource.workspaceId) != "" ==>
        Trim(input.subject.workspaceId) == Trim(input.resource.workspaceId)
  {
    DecisionMeaning(store, c, input, true, stage);
    hide Trim, Compile.WellFormed, EngineOf, MayDecide, Norm;
  }

  // ----- in the request's own fields -----

  /** The attribute policy lets the request through on its own. */
  ghost predicate AttributesAllow(input: Input, policy: AttributePolicy) {
    || policy.anyOf == []
    || (exists clause :: clause in policy.anyOf && forall p :: p in clause.allOf ==> Abac.Holds(input, p))
    || policy.onNoMatch == "allow"
  }

  /** Tuples that lead from the request's subject to its resource along one of the paths. */
  ghost predicate TuplesLead(store: Walk.Store, input: Input, paths: seq<RelationPath>) {
    exists p, rows ::
      && p in paths && (forall c :: c in p.allOf ==> Abac.Holds(input, c))
      && Walk.Links(store, rows, p.relations) && Rebac.LeadsThere(input, rows)
  }

  /** Main result, field by field: what stands behind every allow. The subject is in no other
      tenant or workspace than the resource, one of its roles is granted the action, and the
      action's attribute conditions allow it, or leave it to tuples that lead from the subject
      to the resource. */
  lemma AllowHasGrounds(store: Option<Walk.Store>, c: Compiled, input: Input, stage: Stage)
    requires Compile.WellFormed(c) && ValidTuples(store)
    requires MayDecide(EngineOf(store, c), input, true, stage)
    ensures var a := Norm(input.action);
        && a in c.roles && a in c.attributes
        && !Rbac.Apart(input.subject.tenantId, input.resource.tenantId)
        && !Rbac.Apart(input.subject.workspaceId, input.resource.workspaceId)
        && (exists r, g :: r in input.subject.roles && g in c.roles[a] && Norm(r) == Norm(g) != "")
        && (AttributesAllow(input, c.attributes[a])
            || (c.attributes[a].onNoMatch == "no_op" && store.Some? && a in c.relations
                && TuplesLead(store.value, input, c.relations[a].anyOf)))
  {
    hide Compile.WellFormed, EngineOf, MayDecide, Norm, Trim, Abac.Holds, Walk.Links, Rebac.LeadsThere, Rebac.Granted;
    hide Walk.ValidStore;
    DecisionMeaning(store, c, input, true, stage);
    Rbac.IsolationExact(input);
    var a := Norm(input.action);
    SomeRole(input.subject.roles, c.roles[a]);
    if store.Some? && a in c.relations {
      Rebac.GrantedExact(store.value, input, c.relations[a].anyOf);
    }
  }

  lemma SomeRole(mine: seq<string>, granted: seq<string>)
    requires Rbac.HasRole(mine, Rbac.RoleSet(granted))
    ensures exists r, g :: r in mine && g in granted && Norm(r) == Norm(g) != ""
  {
    hide Norm;
    var role :| role in Rbac.RoleSet(mine) * Rbac.RoleSet(granted);
    var r :| r in mine && Norm(r) == role;
    var g :| g in granted && Norm(g) == role;
  }

  // ----- the meaning of a bundle as written -----

  ghost predicate PathWritten(store: Walk.Store, input: Input, p: RelationPath) {
    && Abac.AllMean(input, p.allOf)
    && Walk.Chain(store, Rebac.SubjectNode(input), Compile.NormAll(p.relations), Rebac.ObjectNode(input))
  }

  ghost predicate RelationsWritten(store: Option<Walk.Store>, policy: RelationPolicy, input: Input) {
    store.Some? && Rebac.Identified(input)
    && exists p :: p in policy.anyOf && PathWritten(store.value, input, p)
  }

  ghost predicate RoleWritten(bundle: Compile.Bundle, input: Input) {
    exists k :: k in bundle.roles && Norm(k) == Norm(input.action)
        && Rbac.HasRole(input.subject.roles, Rbac.RoleSet(bundle.roles[k]))
  }

  /** What the author of the bundle wrote about the request's action. */
  ghost predicate BundleAuthorizes(store: Option<Walk.Store>, bundle: Compile.Bundle, input: Input) {
    var a := Norm(input.action);
    && !Rbac.ScopesConflict(input)
    && RoleWritten(bundle, input)
    && exists k :: k in bundle.attributes && Norm(k) == a
         && (var o := Abac.WrittenOutcome(input, bundle.attributes[k]);
             o == Allow || (o == NoOpinion
               && exists l :: l in bundle.relations && Norm(l) == a
                    && RelationsWritten(store, bundle.relations[l], input)))
  }

  lemma CleanPathWritten(store: Walk.Store, input: Input, p: RelationPath)
    requires Compile.ValidPath(p)
    ensures Rebac.CleanPath(p).relations != []
    ensures Rebac.PathGrants(store, input, Rebac.CleanPath(p)) <==> PathWritten(store, input, p)
  {
    hide Walk.Chain, Abac.AllHold, Abac.AllMean, Abac.CleanConditions, Walk.Supported, Norm;
    hide Rebac.SubjectNode, Rebac.ObjectNode;
    Abac.CleanConditionsMeaning(input, p.allOf);
    assert Rebac.CleanPath(p).relations == Compile.NormAll(p.relations);
  }

  lemma {:induction false} CleanPathsWritten(store: Walk.Store, input: Input, paths: seq<RelationPath>)
    requires forall p :: p in paths ==> Compile.ValidPath(p)
    ensures Rebac.Granted(store, input, Rebac.CleanPaths(paths)) <==>
        exists p :: p in paths && PathWritten(store, input, p)
  {
    hide Compile.ValidPath, PathWritten, Rebac.PathGrants, Rebac.CleanPath;
    if paths != [] {
      var front, last := paths[..|paths| - 1], paths[|paths| - 1];
      assert paths == front + [last];
      CleanPathsWritten(store, input, front);
      CleanPathWritten(store, input, last);
      GrantedAppend(store, input, Rebac.CleanPaths(front), Rebac.CleanPath(last));
    }
  }

  lemma GrantedAppend(store: Walk.Store, input: Input, paths: seq<RelationPath>, p: RelationPath)
    ensures Rebac.Granted(store, input, paths + [p]) <==>
        Rebac.Granted(store, input, paths) || Rebac.PathGrants(store, input, p)
  {
    hide Rebac.PathGrants;
    assert p in paths + [p] && forall q :: q in paths ==> q in paths + [p];
  }

  lemma CompiledRelationsWritten(
      store: Option<Walk.Store>, bundle: Compile.Bundle, c: Compiled, input: Input, actions: set<string>)
    requires Compile.WellFormedRelations(bundle.relations, actions) && NoKeyClash(bundle.relations)
    requires Rekeyed(bundle.relations, c.relations, Rebac.CleanEntry)
    ensures RelationsGrant(store, c, input) <==>
        exists l :: l in bundle.relations && Norm(l) == Norm(input.action)
            && RelationsWritten(store, bundle.relations[l], input)
  {
    hide Norm, Rebac.Granted, Rebac.CleanPaths, PathWritten, Compile.ValidPath, Rebac.Identified, RekeyedSoFar;
    var a := Norm(input.action);
    if l :| l in bundle.relations && Norm(l) == a {
      RekeyedNoClash(bundle.relations, c.relations, Rebac.CleanEntry, l);
      var paths := bundle.relations[l].anyOf;
      if store.Some? {
        CleanPathsWritten(store.value, input, paths);
        Rebac.NothingGranted(store.value, input, Rebac.CleanPaths(paths));
      }
    } else if a in c.relations {
      NoSource(bundle.relations, c.relations, Rebac.CleanEntry, a);
    }
  }

  lemma NoSource<V, W>(raw: map<string, V>, out: map<string, W>, clean: V -> Option<W>, a: string)
    requires Rekeyed(raw, out, clean) && a in out
    ensures exists k :: k in raw && Norm(k) == a && clean(raw[k]) == Some(out[a])
  {
    hide Norm;
    var k :| k in raw && RekeysTo(raw, k, a, out[a], clean);
  }

  lemma CompiledRolesWritten(bundle: Compile.Bundle, c: Compiled, input: Input, actions: set<string>)
    requires Compile.WellFormedRoles(bundle.roles, actions) && NoKeyClash(bundle.roles)
    requires Rekeyed(bundle.roles, c.roles, Compile.CompiledGrant)
    ensures RoleWritten(bundle, input) <==>
        && Norm(input.action) in c.roles
        && Rbac.HasRole(input.subject.roles, Rbac.RoleSet(c.roles[Norm(input.action)]))
  {
    hide Norm, Rbac.HasRole, Rbac.RoleSet, RekeyedSoFar, Compile.CanonicalRoles;
    var a := Norm(input.action);
    if k :| k in bundle.roles && Norm(k) == a {
      RekeyedNoClash(bundle.roles, c.roles, Compile.CompiledGrant, k);
      Compile.CanonicalRolesAgain(bundle.roles[k]);
    } else if a in c.roles {
      NoSource(bundle.roles, c.roles, Compile.CompiledGrant, a);
    }
  }

  lemma CompiledAttributesWritten(bundle: Compile.Bundle, c: Compiled, input: Input, k: string)
    requires NoKeyClash(bundle.attributes) && Rekeyed(bundle.attributes, c.attributes, Abac.CleanEntry)
    requires k in bundle.attributes && Norm(k) != ""
    ensures Norm(k) in c.attributes
        && Abac.PolicyOutcome(input, c.attributes[Norm(k)]) == Abac.WrittenOutcome(input, bundle.attributes[k])
  {
    hide Norm, Abac.PolicyOutcome, Abac.WrittenOutcome, Abac.CleanPolicy, RekeyedSoFar;
    RekeyedNoClash(bundle.attributes, c.attributes, Abac.CleanEntry, k);
    Abac.CleanPolicyMeaning(input, bundle.attributes[k]);
  }

  /** Main result: compiling, then deciding, decides the bundle as written. */
  lemma BundleMeaning(store: Option<Walk.Store>, bundle: Compile.Bundle, c: Compiled, input: Input)
    requires Compile.WellFormedBundle(bundle) && Compile.NoClashes(bundle) && Compile.CompilesTo(bundle, c)
    ensures Authorizes(store, c, input) <==> BundleAuthorizes(store, bundle, input)
  {
    hide Norm, Rbac.HasRole, Rbac.RoleSet, Rbac.ScopesConflict, Abac.PolicyOutcome, Abac.WrittenOutcome;
    hide RelationsGrant, RelationsWritten, Compile.RoutesCompiled, Compile.WellFormedRoutes, Rekeyed;
    hide Abac.ValidPolicy, Compile.WellFormedRelations, Compile.WellFormedRoles, NoKeyClash, RoleWritten;
    var a := Norm(input.action);
    var actions := Compile.BundleActions(bundle);
    CompiledRelationsWritten(store, bundle, c, input, actions);
    CompiledRolesWritten(bundle, c, input, actions);
    if k :| k in bundle.attributes && Norm(k) == a {
      CompiledAttributesWritten(bundle, c, input, k);
      forall l | l in bundle.attributes && Norm(l) == a
        ensures Abac.WrittenOutcome(input, bundle.attributes[l]) == Abac.PolicyOutcome(input, c.attributes[a])
      {
        CompiledAttributesWritten(bundle, c, input, l);
      }
    } else if a in c.attributes {
      NoSource(bundle.attributes, c.attributes, Abac.CleanEntry, a);
    }
  }

  // ----- monotonicity -----

  /** The same policy with role grants that only grew. */
  ghost predicate GrantsGrow(c: Compiled, d: Compiled) {
    && c.routes == d.routes && c.attributes == d.attributes && c.relations == d.relations
    && c.roles.Keys == d.roles.Keys
    && forall a :: a in c.roles ==> Rbac.RoleSet(c.roles[a]) <= Rbac.RoleSet(d.roles[a])
  }

  /** Growing the grants keeps every possible "allow", at the same stage. */
  lemma MoreGrantsAllowMore(store: Option<Walk.Store>, c: Compiled, d: Compiled, input: Input, stage: Stage)
    requires Compile.WellFormed(c) && Compile.WellFormed(d) && GrantsGrow(c, d)
    requires MayDecide(EngineOf(store, c), input, true, stage)
    ensures MayDecide(EngineOf(store, d), input, true, stage)
  {
    hide Compile.CleanRoles, Compile.CleanAttributes, Compile.CleanRelations, Norm, Rbac.RoleSet, MayReturn;
    var before, after := EngineOf(store, c), EngineOf(store, d);
    StagesOf(before, input, true, stage);
    forall i: nat, outcome | i != 1 && StageSays(before, i, input, outcome)
      ensures StageSays(after, i, input, outcome)
    {
      assert EvaluatorAt(before, i) == EvaluatorAt(after, i);
    }
    if IndexOf(stage) >= 1 {
      GateOpens(store, c, d, input, if stage == RoleGrants then Allow else NoOpinion);
    }
  }

  lemma GateOpens(store: Option<Walk.Store>, c: Compiled, d: Compiled, input: Input, outcome: Outcome)
    requires Compile.WellFormed(c) && Compile.WellFormed(d) && GrantsGrow(c, d)
    requires outcome != Deny && StageSays(EngineOf(store, c), 1, input, outcome)
    ensures StageSays(EngineOf(store, d), 1, input, outcome)
  {
    hide Rbac.RoleSet, Norm;
    GateStage(store, c, input, outcome);
    var e := EvaluatorAt(EngineOf(store, d), 1).value;
    var r := Evaluated(NoOpinion, "");
    assert MayReturn(e, input, r);
  }

  function WithRoles(input: Input, roles: seq<string>): Input {
    input.(subject := input.subject.(roles := roles))
  }

  /** Main result: more subject roles likewise keep every possible "allow", at the same
      stage, whether or not a relationship chain is hidden. */
  lemma MoreRolesAllowMore(store: Option<Walk.Store>, c: Compiled, input: Input, roles: seq<string>, stage: Stage)
    requires Compile.WellFormed(c) && Rbac.RoleSet(input.subject.roles) <= Rbac.RoleSet(roles)
    requires MayDecide(EngineOf(store, c), input, true, stage)
    ensures MayDecide(EngineOf(store, c), WithRoles(input, roles), true, stage)
  {
    hide Compile.WellFormed, EngineOf, StageSays, Rbac.RoleSet, WithRoles;
    var engine, more := EngineOf(store, c), WithRoles(input, roles);
    StagesOf(engine, input, true, stage);
    forall i: nat | i < IndexOf(stage)
      ensures StageSays(engine, i, more, NoOpinion)
    {
      if i == 1 {
        GateStaysOpen(store, c, input, roles, NoOpinion);
      } else {
        RolesUnseen(store, c, i, input, roles, NoOpinion);
      }
    }
    if stage == RoleGrants {
      GateStaysOpen(store, c, input, roles, Allow);
    } else {
      RolesUnseen(store, c, IndexOf(stage), input, roles, Allow);
    }
  }

  lemma GateStaysOpen(store: Option<Walk.Store>, c: Compiled, input: Input, roles: seq<string>, outcome: Outcome)
    requires Compile.WellFormed(c) && Rbac.RoleSet(input.subject.roles) <= Rbac.RoleSet(roles)
    requires outcome != Deny && StageSays(EngineOf(store, c), 1, input, outcome)
    ensures StageSays(EngineOf(store, c), 1, WithRoles(input, roles), outcome)
  {
    GateStage(store, c, input, outcome);
    hide Rbac.RoleSet, Norm, Compile.WellFormed;
    var e := EvaluatorAt(EngineOf(store, c), 1).value;
    assert MayReturn(e, WithRoles(input, roles), Evaluated(NoOpinion, ""));
  }

  /** No other stage looks at the subject's roles. */
  lemma RolesUnseen(
      store: Option<Walk.Store>, c: Compiled, i: nat, input: Input, roles: seq<string>, outcome: Outcome)
    requires i != 1
    ensures StageSays(EngineOf(store, c), i, input, outcome) <==>
        StageSays(EngineOf(store, c), i, WithRoles(input, roles), outcome)
  {
    hide MayReturn, WithRoles;
    if i < 4 {
      var e := EvaluatorAt(EngineOf(store, c), i).value;
      forall r
        ensures MayReturn(e, input, r) <==> MayReturn(e, WithRoles(input, roles), r)
      {
        ReturnsAlike(e, input, roles, r);
      }
    }
  }

  lemma ReturnsAlike(e: Evaluator, input: Input, roles: seq<string>, r: Evaluation)
    requires e.Isolation? || e.AttributeRules? || e.RelationRules?
    ensures MayReturn(e, input, r) <==> MayReturn(e, WithRoles(input, roles), r)
  {
    hide Norm, Trim, Rebac.PathsMay, Rebac.Identified, Abac.SomeClauseHolds;
    match e
    case Isolation =>
    case AttributeRules(_) => ClausesUnseen(input, roles);
    case RelationRules(_, _, _) => WalksUnseen(input, roles);
  }

  lemma ClausesUnseen(input: Input, roles: seq<string>)
    ensures forall clauses ::
        Abac.SomeClauseHolds(input, clauses) == Abac.SomeClauseHolds(WithRoles(input, roles), clauses)
  {
    ConditionsUnseen(input, roles);
    hide Abac.AllHold, WithRoles;
  }

  lemma WalksUnseen(input: Input, roles: seq<string>)
    ensures Rebac.Identified(input) == Rebac.Identified(WithRoles(input, roles))
    ensures forall store, limit, paths, r ::
        Rebac.PathsMay(store, limit, input, paths, r)
        <==> Rebac.PathsMay(store, limit, WithRoles(input, roles), paths, r)
  {
    var more := WithRoles(input, roles);
    ConditionsUnseen(input, roles);
    hide Norm, Trim, Walk.WalkMay, Abac.AllHold;
    forall store, limit, p
      ensures Rebac.Passed(store, limit, input, p) <==> Rebac.Passed(store, limit, more, p)
    {
    }
    forall store, limit, p, r
      ensures Rebac.Decides(store, limit, input, p, r) <==> Rebac.Decides(store, limit, more, p, r)
    {
    }
    hide Rebac.Passed, Rebac.Decides;
    forall store, limit, paths
      ensures Rebac.AllPassed(store, limit, input, paths) <==> Rebac.AllPassed(store, limit, more, paths)
    {
    }
    hide Rebac.AllPassed;
    forall store, limit, paths, r
      ensures Rebac.PathsMay(store, limit, input, paths, r) <==> Rebac.PathsMay(store, limit, more, paths, r)
    {
    }
  }

  lemma ConditionsUnseen(input: Input, roles: seq<string>)
    ensures forall conditions ::
        Abac.AllHold(input, conditions) == Abac.AllHold(WithRoles(input, roles), conditions)
  {
    hide Norm, Trim;
    var more := WithRoles(input, roles);
    forall p
      ensures Abac.Holds(input, p) == Abac.Holds(more, p)
    {
    }
  }
}
