/** Keeping persisted policies current: the refresh of the former built-in bundle and the
    overlay of newly shipped routes. Both write into the maps of a policy in place. */
module Compat {
  import opened Text
  import opened Lists
  import opened Policy
  import opened Engine
  import opened Compile
  import opened Meaning
  import Rbac
  import Abac
  import Rebac
  import Walk

  /** The four maps of a compiled policy, shared by everyone who holds the policy. */
  class PolicyMaps {
    var routes: map<string, Route>
    var roles: map<string, seq<string>>
    var attributes: map<string, AttributePolicy>
    var relations: map<string, RelationPolicy>

    constructor (c: Compiled)
      ensures Value() == c
    {
      routes, roles, attributes, relations := c.routes, c.roles, c.attributes, c.relations;
    }

    function Value(): Compiled
      reads this
    {
      Compiled(routes, roles, attributes, relations)
    }
  }

  // ----- the former built-in bundle -----

  const FINDINGS_READ := "findings.read"
  const FINDINGS_TRIAGE := "findings.triage"
  const GRAPH_READ := "graph.read"

  const LEGACY_GRANTS := map[
    FINDINGS_READ := ["read", "write", "admin"],
    FINDINGS_TRIAGE := ["write", "admin"],
    GRAPH_READ := ["read", "write", "admin"]]

  /** The bundle earlier releases shipped: today's with the old grants of three actions. */
  function LegacyBundle(builtIn: Bundle): Bundle {
    builtIn.(roles := builtIn.roles + LEGACY_GRANTS)
  }

  /** What the former bundle granted, and that it differs from today's in nothing else. */
  lemma LegacyGrantsExact(builtIn: Bundle, a: string)
    ensures var old_ := LegacyBundle(builtIn);
        && old_.schemaVersion == builtIn.schemaVersion && old_.routes == builtIn.routes
        && old_.attributes == builtIn.attributes && old_.relations == builtIn.relations
        && (a in {"findings.read", "graph.read"} ==> a in old_.roles && old_.roles[a] == ["read", "write", "admin"])
        && (a == "findings.triage" ==> a in old_.roles && old_.roles[a] == ["write", "admin"])
        && (a !in {"findings.read", "graph.read", "findings.triage"} ==>
              (a in old_.roles <==> a in builtIn.roles) && (a in old_.roles ==> old_.roles[a] == builtIn.roles[a]))
  {
  }

  ghost predicate IsLegacy(builtIn: Bundle, c: Compiled) {
    WellFormedBundle(LegacyBundle(builtIn)) && CompilesTo(LegacyBundle(builtIn), c)
  }

  method IsLegacyPolicy(builtIn: Bundle, policy: PolicyMaps) returns (legacy: bool)
    requires NoClashes(LegacyBundle(builtIn))
    ensures legacy == IsLegacy(builtIn, policy.Value())
  {
    hide WellFormedBundle, CompilesTo, NoClashes, LegacyBundle;
    var compiled := CompileBundle(LegacyBundle(builtIn));
    if compiled.Err? {
      return false;
    }
    legacy := compiled.value == policy.Value();
    if CompilesTo(LegacyBundle(builtIn), policy.Value()) {
      CompilationDeterministic(LegacyBundle(builtIn), compiled.value, policy.Value());
    }
  }

  /** Compares role lists as multisets, by sorting copies. */
  method SameRoleSet(left: seq<string>, right: seq<string>) returns (same: bool)
    ensures same == (multiset(left) == multiset(right))
  {
    hide Sort, TotalOrder;
    var leftCopy, rightCopy := Sort(left, StringLe), Sort(right, StringLe);
    StringOrder();
    SortMultiset(left, right, StringLe);
    if |leftCopy| != |rightCopy| {
      return false;
    }
    for i := 0 to |leftCopy|
      invariant leftCopy[..i] == rightCopy[..i]
    {
      if leftCopy[i] != rightCopy[i] {
        return false;
      }
    }
    assert leftCopy == leftCopy[..|leftCopy|] == rightCopy[..|leftCopy|] == rightCopy;
    return true;
  }

  function UpgradedGrant(base: Compiled, fallback: Compiled, a: string): seq<string>
    requires a in base.roles
  {
    if a in LEGACY_GRANTS && a in fallback.roles && multiset(base.roles[a]) == multiset(LEGACY_GRANTS[a])
    then fallback.roles[a]
    else base.roles[a]
  }

  /** Actions that still carry exactly the old grant get the current one. */
  function Upgraded(base: Compiled, fallback: Compiled): Compiled {
    base.(roles := map a | a in base.roles :: UpgradedGrant(base, fallback, a))
  }

  method UpgradeLegacyRoleGrants(base: PolicyMaps, fallback: PolicyMaps)
    requires base != fallback
    modifies base
    ensures base.Value() == Upgraded(old(base.Value()), fallback.Value())
  {
    ghost var before, current := base.Value(), fallback.Value();
    var todo := LEGACY_GRANTS.Keys;
    while todo != {}
      invariant todo <= LEGACY_GRANTS.Keys
      invariant base.routes == before.routes && base.attributes == before.attributes
      invariant base.relations == before.relations && base.roles.Keys == before.roles.Keys
      invariant forall a :: a in base.roles ==>
          base.roles[a] == if a in todo then before.roles[a] else UpgradedGrant(before, current, a)
    {
      var action :| action in todo;
      if action in base.roles && action in fallback.roles {
        var same := SameRoleSet(base.roles[action], LEGACY_GRANTS[action]);
        if same {
          base.roles := base.roles[action := fallback.roles[action]];
        }
      }
      todo := todo - {action};
    }
  }

  /** The facts about the shipped bundle the refresh relies on: clean action names, the
      three actions present, and current grants that include the old ones. */
  ghost predicate RefreshesLegacy(builtIn: Bundle) {
    && WellFormedBundle(builtIn) && NormalKeys(builtIn.roles)
    && LEGACY_GRANTS.Keys <= builtIn.roles.Keys
    && forall a :: a in LEGACY_GRANTS ==> Rbac.RoleSet(LEGACY_GRANTS[a]) <= Rbac.RoleSet(builtIn.roles[a])
  }

  lemma LegacyRolesClean(roles: seq<string>)
    requires roles == ["read", "write", "admin"] || roles == ["write", "admin"]
    ensures Distinct(roles) && forall i :: 0 <= i < |roles| ==> Normal(roles[i]) && roles[i] != ""
  {
    LettersNormal("read");
    LettersNormal("write");
    LettersNormal("admin");
    hide Normal;
  }

  lemma LegacyGrantClean(a: string)
    requires a in LEGACY_GRANTS
    ensures var roles := LEGACY_GRANTS[a];
        multiset(CanonicalRoles(roles)) == multiset(roles) && Rbac.RoleSet(roles) != {}
  {
    hide Normal, CanonicalRoles, Rbac.RoleSet;
    LegacyRolesClean(LEGACY_GRANTS[a]);
    CleanRolesCanonical(LEGACY_GRANTS[a]);
  }

  lemma CleanRolesCanonical(roles: seq<string>)
    requires Distinct(roles) && roles != [] && forall i :: 0 <= i < |roles| ==> Normal(roles[i]) && roles[i] != ""
    ensures multiset(CanonicalRoles(roles)) == multiset(roles) && Rbac.RoleSet(roles) != {}
  {
    hide Sort, StringLe, Dedupe;
    assert NormAll(roles) == roles;
    forall v | v in roles
      ensures v != "" && Trimmed(v)
    {
      NormalFacts(v);
    }
    DedupeIdempotent(roles);
    StringOrder();
    SortCorrect(roles, StringLe);
    assert roles[0] in roles && Norm(roles[0]) in Rbac.RoleSet(roles);
  }

  lemma LegacyKeys(builtIn: Bundle)
    requires RefreshesLegacy(builtIn)
    ensures NormalKeys(LegacyBundle(builtIn).roles)
    ensures LegacyBundle(builtIn).roles.Keys == builtIn.roles.Keys
  {
    hide Norm, WellFormedBundle;
  }

  /** The grant of one clean action, before and after compilation. */
  lemma CompiledGrantOf(bundle: Bundle, c: Compiled, a: string)
    requires NormalKeys(bundle.roles) && Rekeyed(bundle.roles, c.roles, CompiledGrant)
    ensures a in c.roles <==> a in bundle.roles && Rbac.RoleSet(bundle.roles[a]) != {}
    ensures a in c.roles ==> c.roles[a] == CanonicalRoles(bundle.roles[a])
  {
    hide Norm, RekeyedSoFar, CanonicalRoles, Rbac.RoleSet;
    RekeyedNormal(bundle.roles, c.roles, CompiledGrant);
  }

  lemma RefreshedGrant(builtIn: Bundle, old_: Compiled, current: Compiled, a: string)
    requires RefreshesLegacy(builtIn)
    requires CompilesTo(LegacyBundle(builtIn), old_) && CompilesTo(builtIn, current)
    ensures a in old_.roles <==> a in current.roles
    ensures a in old_.roles ==> UpgradedGrant(old_, current, a) == current.roles[a]
    ensures a in old_.roles ==> Rbac.RoleSet(old_.roles[a]) <= Rbac.RoleSet(current.roles[a])
  {
    hide Norm, Rekeyed, CanonicalRoles, Rbac.RoleSet, RoutesCompiled, WellFormedRoles, WellFormedAttributes;
    hide WellFormedRelations, AllDefined, WellFormedRoutes, NormalKeys;
    LegacyKeys(builtIn);
    CompiledGrantOf(LegacyBundle(builtIn), old_, a);
    CompiledGrantOf(builtIn, current, a);
    if a in LEGACY_GRANTS {
      LegacyGrantClean(a);
      assert LegacyBundle(builtIn).roles[a] == LEGACY_GRANTS[a];
      CanonicalRolesAgain(LEGACY_GRANTS[a]);
      BuiltInRolesNonEmpty(builtIn, a);
      CanonicalRolesAgain(builtIn.roles[a]);
    } else if a in builtIn.roles {
      assert LegacyBundle(builtIn).roles[a] == builtIn.roles[a];
    }
  }

  lemma BuiltInRolesNonEmpty(builtIn: Bundle, a: string)
    requires WellFormedBundle(builtIn) && a in builtIn.roles
    ensures Rbac.RoleSet(builtIn.roles[a]) != {}
  {
  }

  /** Refreshing the compiled legacy bundle gives exactly the compiled built-in one. */
  lemma UpgradeIsExact(builtIn: Bundle, old_: Compiled, current: Compiled)
    requires RefreshesLegacy(builtIn) && NoClashes(builtIn)
    requires CompilesTo(LegacyBundle(builtIn), old_) && CompilesTo(builtIn, current)
    ensures Upgraded(old_, current) == current
    ensures GrantsGrow(old_, current)
  {
    hide RefreshesLegacy, UpgradedGrant, Rbac.RoleSet, RekeyedSoFar, Norm, Abac.CleanEntry, Rebac.CleanEntry;
    RoutesUnique(builtIn.routes, old_.routes, current.routes);
    RekeyedUnique(builtIn.attributes, old_.attributes, current.attributes, Abac.CleanEntry);
    RekeyedUnique(builtIn.relations, old_.relations, current.relations, Rebac.CleanEntry);
    forall a
      ensures a in old_.roles <==> a in current.roles
      ensures a in old_.roles ==> UpgradedGrant(old_, current, a) == current.roles[a]
      ensures a in old_.roles ==> Rbac.RoleSet(old_.roles[a]) <= Rbac.RoleSet(current.roles[a])
    {
      RefreshedGrant(builtIn, old_, current, a);
    }
  }

  /** So nothing the legacy policy allowed is denied after the refresh. */
  lemma UpgradeAllowsMore(
      store: Option<Walk.Store>, builtIn: Bundle, old_: Compiled, current: Compiled, input: Input, stage: Stage)
    requires RefreshesLegacy(builtIn) && NoClashes(builtIn) && IsLegacy(builtIn, old_) && CompilesTo(builtIn, current)
    requires MayDecide(EngineOf(store, old_), input, true, stage)
    ensures MayDecide(EngineOf(store, Upgraded(old_, current)), input, true, stage)
  {
    hide EngineOf, MayDecide, WellFormed, GrantsGrow, Upgraded, CompilesTo, NoClashes;
    hide LegacyBundle, WellFormedRoles, WellFormedAttributes, WellFormedRelations, WellFormedRoutes;
    UpgradeIsExact(builtIn, old_, current);
    CompiledWellFormed(LegacyBundle(builtIn), old_);
    CompiledWellFormed(builtIn, current);
    MoreGrantsAllowMore(store, old_, current, input, stage);
  }

  // ----- newly shipped routes -----

  function GetOr<V>(m: map<string, V>, a: string, default: V): V {
    if a in m then m[a] else default
  }

  const NO_ATTRIBUTES := AttributePolicy([], "")
  const NO_RELATIONS := RelationPolicy([])

  /** The definitions whose route is missing from the base and known to the fallback. */
  function AddedKeys(base: Compiled, fallback: Compiled, definitions: seq<RouteDefinition>): set<string> {
    set d | d in definitions && NormalizeDefinition(d).Some?
      && KeyOf(d) !in base.routes && KeyOf(d) in fallback.routes :: KeyOf(d)
  }

  function AddedActions(base: Compiled, fallback: Compiled, definitions: seq<RouteDefinition>): set<string> {
    set key | key in AddedKeys(base, fallback, definitions) && key in fallback.routes :: fallback.routes[key].action
  }

  function Merged<V>(source: map<string, V>, default: V, base: map<string, V>, actions: set<string>): map<string, V> {
    (map x | x in actions :: GetOr(source, x, default)) + base
  }

  /** Added routes come with the fallback's entries for their actions; entries the base
      already has win. */
  function WithEntries(base: Compiled, fallback: Compiled, keys: set<string>, actions: set<string>): Compiled
    requires keys <= fallback.routes.Keys
  {
    Compiled(
      base.routes + (map key | key in keys :: fallback.routes[key]),
      Merged(fallback.roles, [], base.roles, actions),
      Merged(fallback.attributes, NO_ATTRIBUTES, base.attributes, actions),
      Merged(fallback.relations, NO_RELATIONS, base.relations, actions))
  }

  function Overlaid(base: Compiled, fallback: Compiled, definitions: seq<RouteDefinition>): Compiled {
    WithEntries(base, fallback, AddedKeys(base, fallback, definitions), AddedActions(base, fallback, definitions))
  }

  /** One round of the loop, on values. */
  function AddEntry(c: Compiled, fallback: Compiled, key: string): Compiled
    requires key in fallback.routes
  {
    var a := fallback.routes[key].action;
    Compiled(
      c.routes[key := fallback.routes[key]],
      if a in c.roles then c.roles else c.roles[a := GetOr(fallback.roles, a, [])],
      if a in c.attributes then c.attributes else c.attributes[a := GetOr(fallback.attributes, a, NO_ATTRIBUTES)],
      if a in c.relations then c.relations else c.relations[a := GetOr(fallback.relations, a, NO_RELATIONS)])
  }

  lemma OverlayNone(base: Compiled, fallback: Compiled)
    ensures Overlaid(base, fallback, []) == base
  {
    hide NormalizeDefinition, KeyOf, GetOr;
    assert AddedKeys(base, fallback, []) == {};
    assert AddedActions(base, fallback, []) == {};
    MergedNone(fallback.roles, [], base.roles);
    MergedNone(fallback.attributes, NO_ATTRIBUTES, base.attributes);
    MergedNone(fallback.relations, NO_RELATIONS, base.relations);
    hide Merged;
  }

  lemma MergedNone<V>(source: map<string, V>, default: V, base: map<string, V>)
    ensures Merged(source, default, base, {}) == base
  {
  }

  lemma OverlaySkips(base: Compiled, fallback: Compiled, before: seq<RouteDefinition>, d: RouteDefinition)
    requires NormalizeDefinition(d).None?
        || KeyOf(d) in Overlaid(base, fallback, before).routes || KeyOf(d) !in fallback.routes
    ensures Overlaid(base, fallback, before + [d]) == Overlaid(base, fallback, before)
  {
    hide NormalizeDefinition, KeyOf;
    assert AddedKeys(base, fallback, before + [d]) == AddedKeys(base, fallback, before);
  }

  lemma EntryAdded<V>(source: map<string, V>, default: V, base: map<string, V>, actions: set<string>, a: string)
    ensures var entries := Merged(source, default, base, actions);
        Merged(source, default, base, actions + {a}) ==
        if a in entries then entries else entries[a := GetOr(source, a, default)]
  {
  }

  lemma MoreKeys(base: Compiled, fallback: Compiled, before: seq<RouteDefinition>, d: RouteDefinition)
    requires NormalizeDefinition(d).Some? && KeyOf(d) !in base.routes && KeyOf(d) in fallback.routes
    ensures AddedKeys(base, fallback, before + [d]) == AddedKeys(base, fallback, before) + {KeyOf(d)}
    ensures AddedActions(base, fallback, before + [d]) ==
        AddedActions(base, fallback, before) + {fallback.routes[KeyOf(d)].action}
  {
    hide NormalizeDefinition, KeyOf;
    assert AddedKeys(base, fallback, before + [d]) == AddedKeys(base, fallback, before) + {KeyOf(d)};
  }

  lemma MoreEntries(base: Compiled, fallback: Compiled, keys: set<string>, actions: set<string>, key: string)
    requires keys <= fallback.routes.Keys && key in fallback.routes && key !in base.routes
    ensures WithEntries(base, fallback, keys + {key}, actions + {fallback.routes[key].action}) ==
        AddEntry(WithEntries(base, fallback, keys, actions), fallback, key)
  {
    hide GetOr, Merged;
    var a := fallback.routes[key].action;
    EntryAdded(fallback.roles, [], base.roles, actions, a);
    EntryAdded(fallback.attributes, NO_ATTRIBUTES, base.attributes, actions, a);
    EntryAdded(fallback.relations, NO_RELATIONS, base.relations, actions, a);
    MoreRoutes(base, fallback, keys, key);
  }

  lemma MoreRoutes(base: Compiled, fallback: Compiled, keys: set<string>, key: string)
    requires keys <= fallback.routes.Keys && key in fallback.routes && key !in base.routes
    ensures base.routes + (map k | k in keys + {key} :: fallback.routes[k]) ==
        (base.routes + (map k | k in keys :: fallback.routes[k]))[key := fallback.routes[key]]
  {
  }

  lemma OverlayAdds(base: Compiled, fallback: Compiled, before: seq<RouteDefinition>, d: RouteDefinition)
    requires NormalizeDefinition(d).Some?
    requires KeyOf(d) !in Overlaid(base, fallback, before).routes && KeyOf(d) in fallback.routes
    ensures Overlaid(base, fallback, before + [d]) == AddEntry(Overlaid(base, fallback, before), fallback, KeyOf(d))
  {
    assert KeyOf(d) !in base.routes;
    hide NormalizeDefinition, KeyOf, AddedKeys, AddedActions, WithEntries, AddEntry;
    MoreKeys(base, fallback, before, d);
    AddedKeysKnown(base, fallback, before);
    MoreEntries(
      base, fallback, AddedKeys(base, fallback, before), AddedActions(base, fallback, before), KeyOf(d));
  }

  method AddFallbackEntry(base: PolicyMaps, fallback: PolicyMaps, key: string)
    requires base != fallback && key in fallback.routes
    modifies base
    ensures base.Value() == AddEntry(old(base.Value()), fallback.Value(), key)
  {
    var added := fallback.routes[key];
    base.routes := base.routes[key := added];
    if added.action !in base.roles {
      base.roles := base.roles[added.action := GetOr(fallback.roles, added.action, [])];
    }
    if added.action !in base.attributes {
      base.attributes := base.attributes[added.action := GetOr(fallback.attributes, added.action, NO_ATTRIBUTES)];
    }
    if added.action !in base.relations {
      base.relations := base.relations[added.action := GetOr(fallback.relations, added.action, NO_RELATIONS)];
    }
  }

  method OverlayCompatibility(base: PolicyMaps, fallback: PolicyMaps, definitions: seq<RouteDefinition>)
    requires base != fallback
    modifies base
    ensures base.Value() == Overlaid(old(base.Value()), fallback.Value(), definitions)
  {
    ghost var before, current := base.Value(), fallback.Value();
    OverlayNone(before, current);
    for i := 0 to |definitions|
      invariant base.Value() == Overlaid(before, current, definitions[..i])
    {
      hide Overlaid, NormalizeDefinition, KeyOf, AddEntry;
      var d := definitions[i];
      assert definitions[..i + 1] == definitions[..i] + [d];
      if NormalizeDefinition(d).None? || KeyOf(d) in base.routes || KeyOf(d) !in fallback.routes {
        OverlaySkips(before, current, definitions[..i], d);
      } else {
        OverlayAdds(before, current, definitions[..i], d);
        AddFallbackEntry(base, fallback, KeyOf(d));
      }
    }
    assert definitions[..|definitions|] == definitions;
  }

  lemma ActionsUnion(m: map<string, Route>, n: map<string, Route>)
    requires m.Keys !! n.Keys
    ensures Actions(m + n) == Actions(m) + Actions(n)
  {
    var both := m + n;
    forall a
      ensures a in Actions(both) <==> a in Actions(m) || a in Actions(n)
    {
      if key :| key in m && m[key].action == a {
        assert both[key].action == a;
      }
      if key :| key in n && n[key].action == a {
        assert both[key].action == a;
      }
    }
  }

  lemma OverlaidActions(base: Compiled, fallback: Compiled, definitions: seq<RouteDefinition>)
    ensures Actions(Overlaid(base, fallback, definitions).routes) ==
        Actions(base.routes) + AddedActions(base, fallback, definitions)
    ensures var c := Overlaid(base, fallback, definitions);
        forall key :: key in base.routes ==> key in c.routes && c.routes[key] == base.routes[key]
  {
    hide AddedKeys, GetOr;
    AddedKeysKnown(base, fallback, definitions);
    var added := map key | key in AddedKeys(base, fallback, definitions) :: fallback.routes[key];
    ActionsUnion(base.routes, added);
    assert Actions(added) == AddedActions(base, fallback, definitions);
  }

  lemma MergedRolesClean(source: map<string, seq<string>>, base: map<string, seq<string>>, actions: set<string>)
    requires CleanRoles(source) && CleanRoles(base) && actions <= source.Keys
    ensures CleanRoles(Merged(source, [], base, actions))
  {
    hide CanonicalRoles;
  }

  lemma MergedAttributesClean(
      source: map<string, AttributePolicy>, base: map<string, AttributePolicy>, actions: set<string>)
    requires CleanAttributes(source) && CleanAttributes(base) && actions <= source.Keys
    ensures CleanAttributes(Merged(source, NO_ATTRIBUTES, base, actions))
  {
    hide Abac.CleanPolicy;
  }

  lemma MergedRelationsClean(
      source: map<string, RelationPolicy>, base: map<string, RelationPolicy>, actions: set<string>)
    requires CleanRelations(source) && CleanRelations(base)
    ensures CleanRelations(Merged(source, NO_RELATIONS, base, actions))
  {
    NoPaths();
    hide Rebac.CleanPaths;
  }

  /** The overlay keeps policies well-formed and every route they had. */
  lemma OverlayWellFormed(base: Compiled, fallback: Compiled, definitions: seq<RouteDefinition>)
    requires WellFormed(base) && WellFormed(fallback)
    ensures WellFormed(Overlaid(base, fallback, definitions))
    ensures var c := Overlaid(base, fallback, definitions);
        forall key :: key in base.routes ==> key in c.routes && c.routes[key] == base.routes[key]
  {
    OverlaidActions(base, fallback, definitions);
    AddedKeysKnown(base, fallback, definitions);
    hide AddedKeys, AddedActions, Actions, CleanRoles, CleanAttributes, CleanRelations, Normal, GetOr;
    var actions := AddedActions(base, fallback, definitions);
    MergedRolesClean(fallback.roles, base.roles, actions);
    MergedAttributesClean(fallback.attributes, base.attributes, actions);
    MergedRelationsClean(fallback.relations, base.relations, actions);
  }

  lemma NoPaths()
    ensures Rebac.CleanPaths([]) == []
  {
  }

  lemma AddedKeysKnown(base: Compiled, fallback: Compiled, definitions: seq<RouteDefinition>)
    ensures AddedKeys(base, fallback, definitions) <= fallback.routes.Keys
    ensures AddedKeys(base, fallback, definitions) !! base.routes.Keys
    ensures AddedActions(base, fallback, definitions) <= Actions(fallback.routes)
  {
    hide NormalizeDefinition, KeyOf;
  }

  /** An action the base registers without relationship paths, which the overlay would
      give the fallback's paths. */
  ghost predicate GainsRelations(base: Compiled, fallback: Compiled, definitions: seq<RouteDefinition>, a: string) {
    && a in base.roles && a !in base.relations
    && a in AddedActions(base, fallback, definitions)
    && a in fallback.relations && fallback.relations[a].anyOf != []
  }

  /** The attribute policy answers every request: it never falls through to the
      relationship stage. */
  predicate Decisive(policy: AttributePolicy) {
    policy.onNoMatch != Abac.NO_OP || policy.anyOf == [] || exists c :: c in policy.anyOf && c.allOf == []
  }

  /** The attribute conditions of every such action are decisive. */
  ghost predicate OverlaySafe(base: Compiled, fallback: Compiled, definitions: seq<RouteDefinition>) {
    forall a ::
      GainsRelations(base, fallback, definitions, a) && a in base.attributes ==> Decisive(base.attributes[a])
  }

  ghost predicate SameDecisions(store: Option<Walk.Store>, c: Compiled, d: Compiled, input: Input) {
    forall allowed, stage ::
      MayDecide(EngineOf(store, c), input, allowed, stage) <==> MayDecide(EngineOf(store, d), input, allowed, stage)
  }

  /** The overlaid policy holds the same entries for a registered action, except for
      gained relationship paths. */
  lemma OverlayEntry(base: Compiled, fallback: Compiled, definitions: seq<RouteDefinition>, a: string)
    requires WellFormed(base) && a in base.roles
    ensures var c := Overlaid(base, fallback, definitions);
        && a in c.roles && c.roles[a] == base.roles[a]
        && a in c.attributes && c.attributes[a] == base.attributes[a]
        && (a in base.relations ==> a in c.relations && c.relations[a] == base.relations[a])
        && (a !in base.relations && a in c.relations ==>
              && a in AddedActions(base, fallback, definitions)
              && c.relations[a] == GetOr(fallback.relations, a, NO_RELATIONS))
        && (a in AddedActions(base, fallback, definitions) ==> a in c.relations)
  {
    hide AddedKeys;
    AddedKeysKnown(base, fallback, definitions);
  }

  /** A listed definition names this route. */
  ghost predicate ListedAs(definitions: seq<RouteDefinition>, key: string) {
    exists d :: d in definitions && NormalizeDefinition(d).Some? && RouteKey(d.httpMethod, d.path) == key
  }

  /** Main result, entry by entry: exactly what the overlay adds. A route is new when it is listed
      and only the fallback has it; its action, where the base has none, comes with the
      fallback's grants, conditions and relationship paths. */
  lemma OverlayAddsExactly(base: Compiled, fallback: Compiled, definitions: seq<RouteDefinition>, key: string)
    requires WellFormed(base) && WellFormed(fallback)
    ensures var c := Overlaid(base, fallback, definitions);
        && (key in c.routes <==> key in base.routes || (key in fallback.routes && ListedAs(definitions, key)))
        && (key in c.routes && key !in base.routes ==>
              var a := fallback.routes[key].action;
              && c.routes[key] == fallback.routes[key]
              && a in c.roles && c.roles[a] == (if a in base.roles then base.roles[a] else fallback.roles[a])
              && a in c.attributes
              && c.attributes[a] == (if a in base.attributes then base.attributes[a] else fallback.attributes[a])
              && a in c.relations
              && c.relations[a] ==
                 if a in base.relations then base.relations[a]
                 else if a in fallback.relations then fallback.relations[a]
                 else RelationPolicy([]))
  {
    AddedExactly(base, fallback, definitions, key);
    AddedKeysKnown(base, fallback, definitions);
    AddedAction(base, fallback, definitions, key);
    FallbackEntries(fallback, key);
    hide AddedKeys, AddedActions, WellFormed, ListedAs;
  }

  lemma FallbackEntries(fallback: Compiled, key: string)
    requires WellFormed(fallback)
    ensures key in fallback.routes ==>
        fallback.routes[key].action in fallback.roles && fallback.routes[key].action in fallback.attributes
  {
    hide CleanRoles, CleanAttributes, CleanRelations, Normal;
    if key in fallback.routes {
      assert fallback.routes[key].action in Actions(fallback.routes);
    }
  }

  lemma AddedAction(base: Compiled, fallback: Compiled, definitions: seq<RouteDefinition>, key: string)
    ensures key in AddedKeys(base, fallback, definitions) && key in fallback.routes ==>
        fallback.routes[key].action in AddedActions(base, fallback, definitions)
  {
    hide AddedKeys;
  }

  lemma AddedExactly(base: Compiled, fallback: Compiled, definitions: seq<RouteDefinition>, key: string)
    ensures key in AddedKeys(base, fallback, definitions) <==>
        key !in base.routes && key in fallback.routes && ListedAs(definitions, key)
  {
    hide NormalizeDefinition, KeyOf, RouteKey;
    forall d | d in definitions && NormalizeDefinition(d).Some?
      ensures KeyOf(d) == RouteKey(d.httpMethod, d.path)
    {
      KeyAsWritten(d);
    }
  }

  lemma KeyAsWritten(d: RouteDefinition)
    requires NormalizeDefinition(d).Some?
    ensures KeyOf(d) == RouteKey(d.httpMethod, d.path)
  {
    KeyOfDefinition(d);
    hide KeyOf, NormalizeDefinition, Trim, Upper;
  }

  /** `c` holds every entry of `base`. */
  ghost predicate Keeps(base: Compiled, c: Compiled) {
    && (forall key :: key in base.routes ==> key in c.routes && c.routes[key] == base.routes[key])
    && (forall a :: a in base.roles ==> a in c.roles && c.roles[a] == base.roles[a])
    && (forall a :: a in base.attributes ==> a in c.attributes && c.attributes[a] == base.attributes[a])
    && (forall a :: a in base.relations ==> a in c.relations && c.relations[a] == base.relations[a])
  }

  lemma OverlayKeeps(base: Compiled, fallback: Compiled, definitions: seq<RouteDefinition>)
    ensures Keeps(base, Overlaid(base, fallback, definitions))
  {
    hide AddedActions, AddedKeys;
    AddedKeysKnown(base, fallback, definitions);
  }

  /** Stages depend only on the policy's entries for the request's action. */
  lemma EarlyStages(store: Option<Walk.Store>, c: Compiled, d: Compiled, input: Input, i: nat, outcome: Outcome)
    requires i < 3
    requires var a := Norm(input.action);
        a in c.roles && a in d.roles && c.roles[a] == d.roles[a]
        && a in c.attributes && a in d.attributes && c.attributes[a] == d.attributes[a]
    ensures StageSays(EngineOf(store, c), i, input, outcome) <==> StageSays(EngineOf(store, d), i, input, outcome)
    ensures StageSays(EngineOf(store, c), i, input, outcome) <==> StageSays(EngineOf(None, c), i, input, outcome)
  {
    hide Norm, Rbac.RoleSet, Rbac.HasRole, Abac.PolicyOutcome, Rbac.ScopesConflict;
    var e, f := EvaluatorAt(EngineOf(store, c), i).value, EvaluatorAt(EngineOf(store, d), i).value;
    forall r
      ensures MayReturn(e, input, r) <==> MayReturn(f, input, r)
    {
    }
  }

  ghost function PathsFor(c: Compiled, a: string): seq<RelationPath> {
    if a in c.relations then c.relations[a].anyOf else []
  }

  lemma LastStage(store: Option<Walk.Store>, c: Compiled, d: Compiled, input: Input, outcome: Outcome)
    requires PathsFor(c, Norm(input.action)) == PathsFor(d, Norm(input.action))
    ensures StageSays(EngineOf(store, c), 3, input, outcome) <==> StageSays(EngineOf(store, d), 3, input, outcome)
  {
    hide Norm, Rebac.PathsMay, Rebac.Identified;
    var e, f := EvaluatorAt(EngineOf(store, c), 3).value, EvaluatorAt(EngineOf(store, d), 3).value;
    forall r
      ensures MayReturn(e, input, r) <==> MayReturn(f, input, r)
    {
    }
  }

  /** Main result, one direction: under the condition no decision about a registered
      action changes. */
  lemma OverlayPreserves(
      store: Option<Walk.Store>, base: Compiled, fallback: Compiled, definitions: seq<RouteDefinition>, input: Input)
    requires WellFormed(base) && Norm(input.action) in base.roles
    requires OverlaySafe(base, fallback, definitions)
    ensures SameDecisions(store, base, Overlaid(base, fallback, definitions), input)
  {
    hide WellFormed, Overlaid, AddedActions, Norm, StageSays, EngineOf, OverlaySafe;
    var a := Norm(input.action);
    var c := Overlaid(base, fallback, definitions);
    OverlayEntry(base, fallback, definitions, a);
    BaseEntry(base, a);
    forall i: nat, outcome | i < 3
      ensures StageSays(EngineOf(store, base), i, input, outcome) <==> StageSays(EngineOf(store, c), i, input, outcome)
      ensures
        StageSays(EngineOf(store, base), i, input, outcome) <==> StageSays(EngineOf(None, base), i, input, outcome)
    {
      EarlyStages(store, base, c, input, i, outcome);
    }
    if GainsRelations(base, fallback, definitions, a) {
      Unfold(base, fallback, definitions, input);
      assert !SilentBefore(EngineOf(store, base), 3, input) && !SilentBefore(EngineOf(store, c), 3, input);
      forall stage | IndexOf(stage) >= 3
        ensures !SilentBefore(EngineOf(store, base), IndexOf(stage), input)
        ensures !SilentBefore(EngineOf(store, c), IndexOf(stage), input)
      {
      }
    } else {
      assert PathsFor(base, a) == PathsFor(c, a);
      forall outcome
        ensures
          StageSays(EngineOf(store, base), 3, input, outcome) <==> StageSays(EngineOf(store, c), 3, input, outcome)
      {
        LastStage(store, base, c, input, outcome);
      }
    }
  }

  lemma Unfold(base: Compiled, fallback: Compiled, definitions: seq<RouteDefinition>, input: Input)
    requires WellFormed(base) && OverlaySafe(base, fallback, definitions)
    requires GainsRelations(base, fallback, definitions, Norm(input.action))
    ensures !SilentBefore(EngineOf(None, base), 3, input)
  {
    hide EngineOf, Norm, WellFormed, Abac.PolicyOutcome, StageSays;
    var a := Norm(input.action);
    BaseEntry(base, a);
    DecisiveSpeaks(input, base.attributes[a]);
    if StageSays(EngineOf(None, base), 2, input, NoOpinion) {
      AttributeStage(None, base, input, NoOpinion);
    }
  }

  lemma DecisiveSpeaks(input: Input, policy: AttributePolicy)
    requires Decisive(policy)
    ensures Abac.PolicyOutcome(input, policy) != NoOpinion
  {
    if c :| c in policy.anyOf && c.allOf == [] {
      assert Abac.AllHold(input, c.allOf);
    }
  }

  /** A request that says nothing but its action and roles. */
  function BlankRequest(action: string, roles: seq<string>): Input {
    Input(
      Subject("", "", "", "", roles, map[]), action, Resource("", "", "", "", map[]), Context("", "", map[]))
  }

  lemma BlankFails(action: string, roles: seq<string>, p: Predicate)
    ensures !Abac.Holds(BlankRequest(action, roles), p)
  {
    hide Norm;
    assert Trim("") == "";
    hide Trim;
  }

  lemma BlankSilent(action: string, roles: seq<string>, policy: AttributePolicy)
    requires !Decisive(policy)
    ensures Abac.PolicyOutcome(BlankRequest(action, roles), policy) == NoOpinion
  {
    hide Abac.Holds;
    var input := BlankRequest(action, roles);
    forall c | c in policy.anyOf
      ensures !Abac.AllHold(input, c.allOf)
    {
      BlankFails(action, roles, c.allOf[0]);
      assert c.allOf[0] in c.allOf;
    }
  }

  lemma GrantNonEmpty(base: Compiled, a: string)
    requires WellFormed(base) && a in base.roles
    ensures Rbac.RoleSet(base.roles[a]) != {}
  {
    hide CanonicalRoles, Rbac.RoleSet, CleanAttributes, CleanRelations, Norm;
    CanonicalRolesList(base.roles[a]);
    NoElements(base.roles[a]);
  }

  lemma ActionNormal(base: Compiled, a: string)
    requires WellFormed(base) && a in base.roles
    ensures Norm(a) == a && a != ""
  {
    hide CleanAttributes, CleanRelations, Norm;
  }

  lemma BlankInScope(action: string, roles: seq<string>)
    ensures !Rbac.ScopesConflict(BlankRequest(action, roles))
  {
    assert Trim("") == "";
    hide Trim;
  }

  /** A request in scope, with a granted role and undecided conditions, reaches the last stage. */
  lemma SilentEarly(base: Compiled, input: Input)
    requires var a := Norm(input.action);
        && !Rbac.ScopesConflict(input)
        && a in base.roles && Rbac.HasRole(input.subject.roles, Rbac.RoleSet(base.roles[a]))
        && a in base.attributes && Abac.PolicyOutcome(input, base.attributes[a]) == NoOpinion
    ensures SilentBefore(EngineOf(None, base), 3, input)
  {
    hide Norm, Rbac.ScopesConflict, Rbac.HasRole, Rbac.RoleSet, Abac.PolicyOutcome;
    var r := Evaluated(NoOpinion, "");
    assert MayReturn(Isolation, input, r);
    assert MayReturn(EvaluatorAt(EngineOf(None, base), 1).value, input, r);
    assert MayReturn(AttributeRules(base.attributes), input, r);
    hide MayReturn;
  }

  /** With the granted roles, the blank request passes the first three stages silently. */
  lemma BlankFallsThrough(base: Compiled, a: string)
    requires WellFormed(base) && a in base.roles && a in base.attributes && !Decisive(base.attributes[a])
    ensures Norm(BlankRequest(a, base.roles[a]).action) == a
    ensures SilentBefore(EngineOf(None, base), 3, BlankRequest(a, base.roles[a]))
  {
    ActionNormal(base, a);
    GrantNonEmpty(base, a);
    BlankInScope(a, base.roles[a]);
    BlankSilent(a, base.roles[a], base.attributes[a]);
    hide Norm, Rbac.ScopesConflict, Rbac.RoleSet, Abac.PolicyOutcome, WellFormed, Decisive, SilentBefore, EngineOf;
    SilentEarly(base, BlankRequest(a, base.roles[a]));
  }

  lemma BaseEntry(base: Compiled, a: string)
    requires WellFormed(base) && a in base.roles
    ensures a in base.attributes && a != ""
  {
  }

  /** The other direction: a request that breaks the condition gets a default denial from
      the base, which the overlaid policy cannot give. */
  lemma OverlayChanges(
      store: Walk.Store, base: Compiled, fallback: Compiled, definitions: seq<RouteDefinition>, input: Input)
    requires WellFormed(base)
    requires GainsRelations(base, fallback, definitions, Norm(input.action))
    requires SilentBefore(EngineOf(None, base), 3, input)
    ensures MayDecide(EngineOf(Some(store), base), input, false, DefaultDeny)
    ensures !MayDecide(EngineOf(Some(store), Overlaid(base, fallback, definitions)), input, false, DefaultDeny)
  {
    hide WellFormed, Overlaid, AddedActions, Norm, Rebac.PathsMay, Rebac.Identified;
    var a := Norm(input.action);
    var c := Overlaid(base, fallback, definitions);
    OverlayEntry(base, fallback, definitions, a);
    BaseEntry(base, a);
    forall i: nat | i < 3
      ensures StageSays(EngineOf(Some(store), base), i, input, NoOpinion)
    {
      EarlyStages(Some(store), base, base, input, i, NoOpinion);
    }
    SilentRelations(store, base, c, input);
  }

  lemma SilentRelations(store: Walk.Store, base: Compiled, c: Compiled, input: Input)
    requires var a := Norm(input.action);
        a != "" && a !in base.relations && a in c.relations && c.relations[a].anyOf != []
    ensures StageSays(EngineOf(Some(store), base), 3, input, NoOpinion)
    ensures !StageSays(EngineOf(Some(store), c), 3, input, NoOpinion)
  {
    hide Norm, Rebac.Identified, Rebac.Passed, Rebac.AllPassed, Abac.AllHold;
    var e := EvaluatorAt(EngineOf(Some(store), base), 3).value;
    assert MayReturn(e, input, Evaluated(NoOpinion, ""));
    var f := EvaluatorAt(EngineOf(Some(store), c), 3).value;
    forall reason
      ensures !MayReturn(f, input, Evaluated(NoOpinion, reason))
    {
    }
  }

  /** Main result: exactly when the overlay changes no decision on registered actions. */
  lemma OverlayExact(store: Walk.Store, base: Compiled, fallback: Compiled, definitions: seq<RouteDefinition>)
    requires WellFormed(base)
    ensures (forall input: Input :: Norm(input.action) in base.roles ==>
               SameDecisions(Some(store), base, Overlaid(base, fallback, definitions), input))
        <==> OverlaySafe(base, fallback, definitions)
  {
    hide WellFormed, Overlaid, EngineOf, Norm, SilentBefore, MayDecide, Decisive, BlankRequest;
    var c := Overlaid(base, fallback, definitions);
    if OverlaySafe(base, fallback, definitions) {
      forall input: Input | Norm(input.action) in base.roles
        ensures SameDecisions(Some(store), base, c, input)
      {
        OverlayPreserves(Some(store), base, fallback, definitions, input);
      }
    } else {
      var a :| GainsRelations(base, fallback, definitions, a) && a in base.attributes && !Decisive(base.attributes[a]);
      var input := BlankRequest(a, base.roles[a]);
      BlankFallsThrough(base, a);
      OverlayChanges(store, base, fallback, definitions, input);
      assert !SameDecisions(Some(store), base, c, input);
    }
  }

  // ----- the shipped overlay -----

  const SHIPPED_ROUTES := [
    RouteDefinition("GET", "/v1/scans/:scan_id", "scans.read", "scan", "scan_id"),
    RouteDefinition(
      "POST", "/v1/workspaces/:workspace_id/projects/:project_id/aws/rollouts/:rollout_id/reconcile",
      "tenancy.write", "project", "project_id"),
    RouteDefinition(
      "POST", "/v1/workspaces/:workspace_id/projects/:project_id/aws/rollouts/:rollout_id/retry",
      "tenancy.write", "project", "project_id")]

  /** The facts about the shipped bundle the overlay relies on: only findings.triage has
      relationship paths, and the overlaid routes are registered as listed. */
  ghost predicate ShippedFacts(fallback: Compiled) {
    && fallback.relations.Keys <= {FINDINGS_TRIAGE}
    && forall d :: d in SHIPPED_ROUTES && NormalizeDefinition(d).Some? && KeyOf(d) in fallback.routes ==>
         fallback.routes[KeyOf(d)] == RouteOf(d)
  }

  /** The shipped overlay changes no decision on any action a policy already registers. */
  lemma ShippedOverlaySafe(base: Compiled, fallback: Compiled)
    requires ShippedFacts(fallback)
    ensures OverlaySafe(base, fallback, SHIPPED_ROUTES)
  {
    hide EngineOf, SilentBefore;
    forall a | a in AddedActions(base, fallback, SHIPPED_ROUTES)
      ensures a !in fallback.relations
    {
      var key :| key in AddedKeys(base, fallback, SHIPPED_ROUTES) && fallback.routes[key].action == a;
      ShippedKey(base, fallback, key);
    }
  }

  lemma ShippedKey(base: Compiled, fallback: Compiled, key: string)
    requires ShippedFacts(fallback) && key in AddedKeys(base, fallback, SHIPPED_ROUTES) && key in fallback.routes
    ensures fallback.routes[key].action !in fallback.relations
  {
    hide KeyOf, RouteOf, NormalizeDefinition;
    var d :| d in SHIPPED_ROUTES && NormalizeDefinition(d).Some? && KeyOf(d) == key;
    ShippedAction(d);
  }

  lemma ShippedActionNames(d: RouteDefinition)
    requires d in SHIPPED_ROUTES
    ensures d.action == "scans.read" || d.action == "tenancy.write"
  {
  }

  lemma ShippedAction(d: RouteDefinition)
    requires d in SHIPPED_ROUTES && NormalizeDefinition(d).Some?
    ensures RouteOf(d).action != FINDINGS_TRIAGE
  {
    ShippedActionNames(d);
    CleanAction(d);
  }

  lemma CleanAction(d: RouteDefinition)
    requires NormalizeDefinition(d).Some? && (d.action == "scans.read" || d.action == "tenancy.write")
    ensures RouteOf(d).action == d.action
  {
    hide Norm, Trim;
    LettersNormal(d.action);
  }
}
