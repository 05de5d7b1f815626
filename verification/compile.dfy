/** The policy compiler: which bundles it accepts and what it turns them into. */
module Compile {
  import opened Text
  import opened Lists
  import opened Policy
  import Rbac
  import Abac
  import Walk
  import Rebac

  const SCHEMA_V1 := "identrail.authz.route_policy_bundle.v1"

  datatype RouteDefinition = RouteDefinition(
    httpMethod: string, path: string, action: string, resourceType: string, resourceIdParam: string)

  datatype Bundle = Bundle(
    schemaVersion: string,
    routes: seq<RouteDefinition>,
    roles: map<string, seq<string>>,
    attributes: map<string, AttributePolicy>,
    relations: map<string, RelationPolicy>)

  // ----- routes -----

  predicate ValidMethod(m: string) {
    m in {"GET", "HEAD", "POST", "PUT", "PATCH", "DELETE", "OPTIONS"}
  }

  predicate Contains(s: string, part: string) {
    part <= s || (s != "" && Contains(s[1..], part))
  }

  function RouteKey(httpMethod: string, path: string): string {
    Upper(Trim(httpMethod)) + " " + Trim(path)
  }

  function NormalizeDefinition(d: RouteDefinition): Option<RouteDefinition> {
    var clean := RouteDefinition(
      Upper(Trim(d.httpMethod)), Trim(d.path), Norm(d.action), Norm(d.resourceType), Trim(d.resourceIdParam));
    if !ValidMethod(clean.httpMethod) || !("/v1/" <= clean.path) || clean.action == "" || clean.resourceType == ""
      || (clean.resourceIdParam != "" && !Contains(clean.path, ":" + clean.resourceIdParam))
    then None
    else Some(clean)
  }

  function KeyOf(d: RouteDefinition): string
    requires NormalizeDefinition(d).Some?
  {
    var clean := NormalizeDefinition(d).value;
    RouteKey(clean.httpMethod, clean.path)
  }

  function RouteOf(d: RouteDefinition): Route
    requires NormalizeDefinition(d).Some?
  {
    var clean := NormalizeDefinition(d).value;
    Route(clean.action, clean.resourceType, clean.resourceIdParam)
  }

  ghost predicate AllDefined(definitions: seq<RouteDefinition>) {
    forall d :: d in definitions ==> NormalizeDefinition(d).Some?
  }

  ghost predicate WellFormedRoutes(definitions: seq<RouteDefinition>) {
    && definitions != []
    && AllDefined(definitions)
    && DistinctKeys(definitions)
  }

  ghost predicate DistinctKeys(definitions: seq<RouteDefinition>)
    requires AllDefined(definitions)
  {
    forall i, j :: 0 <= i < j < |definitions| ==> KeyOf(definitions[i]) != KeyOf(definitions[j])
  }

  /** Each definition under its own key, and nothing else. */
  ghost predicate RoutesCompiled(definitions: seq<RouteDefinition>, routes: map<string, Route>)
    requires AllDefined(definitions)
  {
    && (forall d :: d in definitions ==> KeyOf(d) in routes && routes[KeyOf(d)] == RouteOf(d))
    && (forall key :: key in routes ==> exists d :: d in definitions && KeyOf(d) == key)
  }

  function Actions(routes: map<string, Route>): set<string> {
    set key | key in routes :: routes[key].action
  }

  lemma AddRoute(definitions: seq<RouteDefinition>, d: RouteDefinition, routes: map<string, Route>)
    requires AllDefined(definitions) && NormalizeDefinition(d).Some?
    requires RoutesCompiled(definitions, routes) && KeyOf(d) !in routes
    ensures AllDefined(definitions + [d])
    ensures RoutesCompiled(definitions + [d], routes[KeyOf(d) := RouteOf(d)])
    ensures Actions(routes[KeyOf(d) := RouteOf(d)]) == Actions(routes) + {RouteOf(d).action}
    ensures DistinctKeys(definitions) ==> DistinctKeys(definitions + [d])
  {
    hide NormalizeDefinition, KeyOf, RouteOf;
    var next := routes[KeyOf(d) := RouteOf(d)];
    forall key | key in next
      ensures exists e :: e in definitions + [d] && KeyOf(e) == key
    {
      if key == KeyOf(d) {
        assert d in definitions + [d];
      } else {
        var e :| e in definitions && KeyOf(e) == key;
        assert e in definitions + [d];
      }
    }
    forall e | e in definitions
      ensures KeyOf(e) != KeyOf(d)
    {
    }
    assert next[KeyOf(d)].action in Actions(next);
    assert forall key :: key in routes ==> key in next && next[key] == routes[key];
  }

  method CompileRoutes(definitions: seq<RouteDefinition>) returns (r: Result<map<string, Route>>, actions: set<string>)
    ensures r.Ok? <==> WellFormedRoutes(definitions)
    ensures r.Ok? ==> RoutesCompiled(definitions, r.value) && actions == Actions(r.value)
  {
    hide NormalizeDefinition, KeyOf, RouteOf, Actions, DistinctKeys, RoutesCompiled;
    actions := {};
    if |definitions| == 0 {
      return Err("at least one route policy is required"), actions;
    }
    var routes: map<string, Route> := map[];
    NoRoutes();
    for i := 0 to |definitions|
      invariant AllDefined(definitions[..i])
      invariant RoutesCompiled(definitions[..i], routes)
      invariant DistinctKeys(definitions[..i])
      invariant actions == Actions(routes)
    {
      var d := definitions[i];
      assert definitions[..i + 1] == definitions[..i] + [d];
      if NormalizeDefinition(d).None? {
        assert d in definitions;
        return Err("invalid route policy"), actions;
      }
      if KeyOf(d) in routes {
        DuplicateRoute(definitions, i, routes);
        return Err("duplicate route policy"), actions;
      }
      AddRoute(definitions[..i], d, routes);
      routes := routes[KeyOf(d) := RouteOf(d)];
      actions := actions + {RouteOf(d).action};
    }
    assert definitions[..|definitions|] == definitions;
    return Ok(routes), actions;
  }

  lemma NoRoutes()
    ensures Actions(map[]) == {} && DistinctKeys([]) && RoutesCompiled([], map[])
  {
  }

  lemma DuplicateRoute(definitions: seq<RouteDefinition>, i: nat, routes: map<string, Route>)
    requires i < |definitions| && AllDefined(definitions[..i]) && NormalizeDefinition(definitions[i]).Some?
    requires RoutesCompiled(definitions[..i], routes) && KeyOf(definitions[i]) in routes
    ensures !WellFormedRoutes(definitions)
  {
    hide NormalizeDefinition, KeyOf, RouteOf;
    var e :| e in definitions[..i] && KeyOf(e) == KeyOf(definitions[i]);
    var j :| 0 <= j < i && definitions[j] == e;
  }

  lemma RoutesUnique(definitions: seq<RouteDefinition>, a: map<string, Route>, b: map<string, Route>)
    requires AllDefined(definitions) && RoutesCompiled(definitions, a) && RoutesCompiled(definitions, b)
    ensures a == b
  {
    hide NormalizeDefinition, KeyOf, RouteOf;
    forall key
      ensures key in a <==> key in b
      ensures key in a ==> key in b && a[key] == b[key]
    {
      if key in a {
        var d :| d in definitions && KeyOf(d) == key;
      }
      if key in b {
        var d :| d in definitions && KeyOf(d) == key;
      }
    }
  }

  /** The definition names this method and path, up to case and outer white space. */
  predicate Matches(d: RouteDefinition, httpMethod: string, path: string) {
    Upper(Trim(d.httpMethod)) == Upper(Trim(httpMethod)) && Trim(d.path) == Trim(path)
  }

  lemma ValidMethodSpaceless(m: string)
    requires ValidMethod(m)
    ensures ' ' !in m
  {
  }

  lemma KeyOfDefinition(d: RouteDefinition)
    requires NormalizeDefinition(d).Some?
    ensures KeyOf(d) == Upper(Trim(d.httpMethod)) + " " + Trim(d.path)
    ensures ' ' !in Upper(Trim(d.httpMethod))
  {
    UpperFacts(Trim(d.httpMethod));
    ValidMethodSpaceless(Upper(Trim(d.httpMethod)));
  }

  lemma KeyMatches(d: RouteDefinition, httpMethod: string, path: string)
    requires NormalizeDefinition(d).Some? && ' ' !in Trim(httpMethod)
    ensures KeyOf(d) == RouteKey(httpMethod, path) <==> Matches(d, httpMethod, path)
  {
    KeyOfDefinition(d);
    UpperFacts(Trim(httpMethod));
    hide Trim, Upper, NormalizeDefinition, KeyOf;
    if KeyOf(d) == RouteKey(httpMethod, path) {
      SplitInjective(' ', Upper(Trim(d.httpMethod)), Trim(d.path), Upper(Trim(httpMethod)), Trim(path));
    }
  }

  /** A request finds a route exactly when a definition names its method and path, and then
      it finds that definition's route. */
  lemma RouteLookupExact(
      definitions: seq<RouteDefinition>, routes: map<string, Route>, httpMethod: string, path: string)
    requires AllDefined(definitions) && RoutesCompiled(definitions, routes) && ' ' !in Trim(httpMethod)
    ensures RouteKey(httpMethod, path) in routes <==>
        exists d :: d in definitions && Matches(d, httpMethod, path)
    ensures forall d :: d in definitions && Matches(d, httpMethod, path) ==>
        RouteKey(httpMethod, path) in routes && routes[RouteKey(httpMethod, path)] == RouteOf(d)
  {
    hide NormalizeDefinition, KeyOf, RouteOf, Matches, RouteKey;
    forall d | d in definitions
      ensures KeyOf(d) == RouteKey(httpMethod, path) <==> Matches(d, httpMethod, path)
    {
      KeyMatches(d, httpMethod, path);
    }
  }

  /** Main result, field by field: the route a request finds has the action, the resource type
      and the ID parameter of the one definition that names its method and path. */
  lemma RouteFieldsExact(
      definitions: seq<RouteDefinition>, routes: map<string, Route>, httpMethod: string, path: string,
      d: RouteDefinition)
    requires AllDefined(definitions) && RoutesCompiled(definitions, routes) && ' ' !in Trim(httpMethod)
    requires d in definitions
    requires Upper(Trim(d.httpMethod)) == Upper(Trim(httpMethod)) && Trim(d.path) == Trim(path)
    ensures RouteKey(httpMethod, path) in routes
    ensures var route := routes[RouteKey(httpMethod, path)];
        && route.action == Norm(d.action)
        && route.resourceType == Norm(d.resourceType)
        && route.resourceIdParam == Trim(d.resourceIdParam)
  {
    RouteLookupExact(definitions, routes, httpMethod, path);
    assert Matches(d, httpMethod, path);
    hide Norm, Trim, Upper, RoutesCompiled, RouteKey, ValidMethod, Contains;
  }

  /** Exactly which definitions are accepted, as written. */
  lemma DefinitionAccepted(d: RouteDefinition)
    ensures NormalizeDefinition(d).Some? <==>
        && Upper(Trim(d.httpMethod)) in ["GET", "HEAD", "POST", "PUT", "PATCH", "DELETE", "OPTIONS"]
        && |Trim(d.path)| >= 4 && Trim(d.path)[..4] == "/v1/"
        && Norm(d.action) != "" && Norm(d.resourceType) != ""
        && (Trim(d.resourceIdParam) != "" ==> exists i, j ::
              0 <= i <= j <= |Trim(d.path)| && Trim(d.path)[i..j] == ":" + Trim(d.resourceIdParam))
  {
    ContainsExact(Trim(d.path), ":" + Trim(d.resourceIdParam));
    PrefixExact("/v1/", Trim(d.path));
    hide Norm, Trim, Upper, Contains;
  }

  lemma PrefixExact(prefix: string, s: string)
    ensures prefix <= s <==> |prefix| <= |s| && s[..|prefix|] == prefix
  {
  }

  lemma {:induction false} ContainsExact(s: string, part: string)
    ensures Contains(s, part) <==> exists i, j :: 0 <= i <= j <= |s| && s[i..j] == part
  {
    if part <= s {
      assert s[0..|part|] == part;
    } else if s != "" {
      ContainsExact(s[1..], part);
      if i, j :| 0 <= i <= j <= |s| && s[i..j] == part {
        assert s[0..j] <= s;
        assert s[1..][i - 1..j - 1] == part;
      }
      if i, j :| 0 <= i <= j <= |s[1..]| && s[1..][i..j] == part {
        assert s[i + 1..j + 1] == part;
      }
    }
  }

  // ----- roles -----

  /** The canonical list of a role set: ascending, without repeats. */
  ghost predicate IsRoleList(s: seq<string>, roles: set<string>) {
    Ascending(s, StringLe) && Distinct(s) && Elements(s) == roles
  }

  function NormAll(roles: seq<string>): seq<string> {
    seq(|roles|, i requires 0 <= i < |roles| => Norm(roles[i]))
  }

  function CanonicalRoles(roles: seq<string>): seq<string> {
    Sort(Dedupe(NormAll(roles)), StringLe)
  }

  function CompiledGrant(roles: seq<string>): Option<seq<string>> {
    if Rbac.RoleSet(roles) == {} then None else Some(CanonicalRoles(roles))
  }

  lemma DedupedRoles(roles: seq<string>)
    ensures Elements(Dedupe(NormAll(roles))) == Rbac.RoleSet(roles)
  {
    forall v
      ensures v in Dedupe(NormAll(roles)) <==> v in Rbac.RoleSet(roles)
    {
      if v in Rbac.RoleSet(roles) {
        var r :| r in roles && Norm(r) == v;
        var i :| 0 <= i < |roles| && roles[i] == r;
        NormIdempotent(r);
        assert Trim(NormAll(roles)[i]) == v;
      }
      if v in Dedupe(NormAll(roles)) {
        var i :| 0 <= i < |NormAll(roles)| && Trim(NormAll(roles)[i]) == v;
        NormIdempotent(roles[i]);
        assert roles[i] in roles;
      }
    }
  }

  lemma CanonicalRolesList(roles: seq<string>)
    ensures IsRoleList(CanonicalRoles(roles), Rbac.RoleSet(roles))
  {
    StringOrder();
    DedupedRoles(roles);
    SortedListing(Dedupe(NormAll(roles)), StringLe);
  }

  lemma ListsUnique(s: seq<string>, t: seq<string>, roles: set<string>)
    requires IsRoleList(s, roles) && IsRoleList(t, roles)
    ensures s == t
  {
    StringOrder();
    AscendingUnique(s, t, StringLe);
  }

  /** Ranges over the role set in some order, then sorts. */
  method SortRoles(roleSet: set<string>) returns (sorted: seq<string>)
    ensures IsRoleList(sorted, roleSet)
  {
    var listed: seq<string> := [];
    var todo := roleSet;
    while todo != {}
      invariant todo <= roleSet && Distinct(listed) && Elements(listed) == roleSet - todo
    {
      var role :| role in todo;
      assert role !in Elements(listed);
      assert Elements(listed + [role]) == Elements(listed) + {role};
      todo := todo - {role};
      listed := listed + [role];
    }
    sorted := Sort(listed, StringLe);
    StringOrder();
    SortedListing(listed, StringLe);
  }

  method CanonicalList(roleSet: set<string>, ghost roles: seq<string>) returns (sorted: seq<string>)
    requires roleSet == Rbac.RoleSet(roles)
    ensures sorted == CanonicalRoles(roles)
  {
    sorted := SortRoles(roleSet);
    CanonicalRolesList(roles);
    ListsUnique(sorted, CanonicalRoles(roles), roleSet);
  }

  /** Keys name routed actions, and every routed action has a key. */
  ghost predicate Covers<V>(m: map<string, V>, actions: set<string>) {
    KeysKnown(m, actions) && Complete(m, actions)
  }

  ghost predicate KeysKnown<V>(m: map<string, V>, actions: set<string>) {
    forall k :: k in m ==> Norm(k) != "" && Norm(k) in actions
  }

  ghost predicate Complete<V>(m: map<string, V>, actions: set<string>) {
    forall a :: a in actions ==> exists k :: k in m && Norm(k) == a
  }

  ghost predicate WellFormedRoles(grants: map<string, seq<string>>, actions: set<string>) {
    && grants != map[]
    && Covers(grants, actions)
    && forall k :: k in grants ==> Rbac.RoleSet(grants[k]) != {}
  }

  method CompileRoles(grants: map<string, seq<string>>, actions: set<string>)
    returns (r: Result<map<string, seq<string>>>)
    requires "" !in actions
    ensures r.Ok? <==> WellFormedRoles(grants, actions)
    ensures r.Ok? ==> Rekeyed(grants, r.value, CompiledGrant)
  {
    hide Norm, Rbac.RoleSet, CanonicalRoles, RekeyedSoFar, Complete;
    if |grants| == 0 {
      return Err("rbac_action_roles must not be empty");
    }
    var normalized: map<string, seq<string>> := map[];
    var todo := grants.Keys;
    RekeyNone(grants, normalized, CompiledGrant);
    while todo != {}
      invariant todo <= grants.Keys
      invariant forall k :: k in grants && k !in todo ==>
          Norm(k) != "" && Norm(k) in actions && Rbac.RoleSet(grants[k]) != {}
      invariant RekeyedSoFar(grants, grants.Keys - todo, normalized, CompiledGrant)
    {
      var k :| k in todo;
      assert grants.Keys - (todo - {k}) == grants.Keys - todo + {k};
      if Norm(k) == "" || Norm(k) !in actions {
        return Err("rbac action is not referenced by any route policy");
      }
      var roleSet := Rbac.CollectRoles(grants[k]);
      if roleSet == {} {
        return Err("rbac action must include at least one role");
      }
      var sorted := CanonicalList(roleSet, grants[k]);
      RekeyNext(grants, grants.Keys - todo, normalized, CompiledGrant, k, sorted);
      normalized := normalized[Norm(k) := sorted];
      todo := todo - {k};
    }
    assert grants.Keys - todo == grants.Keys;
    RekeyedComplete(grants, normalized, CompiledGrant, actions);
    if a :| a in actions && a !in normalized {
      return Err("rbac action is required by route policy but missing");
    }
    return Ok(normalized);
  }

  /** The check for missing entries looks at the result, and finds the same gaps as
      looking at the raw keys would. */
  lemma RekeyedComplete<V, W>(raw: map<string, V>, out: map<string, W>, clean: V -> Option<W>, actions: set<string>)
    requires Rekeyed(raw, out, clean) && forall k :: k in raw ==> clean(raw[k]).Some? && Norm(k) != ""
    ensures Complete(raw, actions) <==> actions <= out.Keys
  {
    hide Norm, RekeyedSoFar;
    if actions <= out.Keys {
      forall a | a in actions
        ensures exists k :: k in raw && Norm(k) == a
      {
        var k := RekeyedFrom(raw, out, clean, a);
      }
    }
    if Complete(raw, actions) {
      forall a | a in actions
        ensures a in out
      {
        var k :| k in raw && Norm(k) == a;
        RekeyedHas(raw, out, clean, k);
      }
    }
  }

  ghost predicate WellFormedAttributes(policies: map<string, AttributePolicy>, actions: set<string>) {
    && policies != map[]
    && Covers(policies, actions)
    && forall k :: k in policies ==> Abac.ValidPolicy(policies[k])
  }

  method CompileAttributes(policies: map<string, AttributePolicy>, actions: set<string>)
    returns (r: Result<map<string, AttributePolicy>>)
    ensures r.Ok? <==> WellFormedAttributes(policies, actions)
    ensures r.Ok? ==> Rekeyed(policies, r.value, Abac.CleanEntry)
  {
    hide Norm, Abac.ValidPolicy, RekeyedSoFar;
    if |policies| == 0 {
      return Err("abac_policies must not be empty");
    }
    var todo := policies.Keys;
    while todo != {}
      invariant todo <= policies.Keys
      invariant forall k :: k in policies && k !in todo ==>
          Norm(k) != "" && Norm(k) in actions && Abac.ValidPolicy(policies[k])
    {
      var k :| k in todo;
      todo := todo - {k};
      if Norm(k) == "" || Norm(k) !in actions {
        return Err("abac policy action is not referenced by any route policy");
      }
      var valid := Abac.ValidatePolicy(policies[k]);
      if !valid {
        return Err("invalid abac policy");
      }
    }
    var normalized := Abac.NormalizePolicies(policies);
    RekeyedComplete(policies, normalized, Abac.CleanEntry, actions);
    if a :| a in actions && a !in normalized {
      return Err("abac policy for action is required");
    }
    return Ok(normalized);
  }

  predicate ValidPath(path: RelationPath) {
    && path.relations != []
    && (forall r :: r in path.relations ==> Walk.Supported(Norm(r)))
    && Abac.ValidConditions(path.allOf)
  }

  predicate ValidRelationPolicy(policy: RelationPolicy) {
    forall p :: p in policy.anyOf ==> ValidPath(p)
  }

  /** The compiler accepts exactly the paths that name one of the four relations at every hop
      and whose every condition some request can meet. */
  lemma ValidPathExactly(path: RelationPath)
    ensures ValidPath(path) <==>
        && path.relations != []
        && (forall r :: r in path.relations ==> Norm(r) in ["owns", "manages", "delegated_admin", "member_of"])
        && (forall p :: p in path.allOf ==> exists input :: Abac.Means(input, p))
  {
    hide Norm, Abac.Means, Abac.ValidPredicate;
    forall p
      ensures Abac.ValidPredicate(p) <==> exists input :: Abac.Means(input, p)
    {
      Abac.ValidExactly(p);
    }
  }

  method ValidatePath(path: RelationPath) returns (ok: bool)
    ensures ok == ValidPath(path)
  {
    hide Norm, Walk.Supported;
    if |path.relations| == 0 {
      return false;
    }
    for i := 0 to |path.relations|
      invariant forall j :: 0 <= j < i ==> Walk.Supported(Norm(path.relations[j]))
    {
      if !Walk.Supported(Norm(path.relations[i])) {
        assert path.relations[i] in path.relations;
        return false;
      }
    }
    ok := Abac.ValidateConditions(path.allOf);
  }

  method ValidateRelationPolicy(policy: RelationPolicy) returns (ok: bool)
    ensures ok == ValidRelationPolicy(policy)
  {
    hide ValidPath;
    for i := 0 to |policy.anyOf|
      invariant forall j :: 0 <= j < i ==> ValidPath(policy.anyOf[j])
    {
      var valid := ValidatePath(policy.anyOf[i]);
      if !valid {
        assert policy.anyOf[i] in policy.anyOf;
        return false;
      }
    }
    return true;
  }

  ghost predicate WellFormedRelations(policies: map<string, RelationPolicy>, actions: set<string>) {
    KeysKnown(policies, actions) && forall k :: k in policies ==> ValidRelationPolicy(policies[k])
  }

  method CompileRelations(policies: map<string, RelationPolicy>, actions: set<string>)
    returns (r: Result<map<string, RelationPolicy>>)
    ensures r.Ok? <==> WellFormedRelations(policies, actions)
    ensures r.Ok? ==> Rekeyed(policies, r.value, Rebac.CleanEntry)
  {
    hide Norm, ValidRelationPolicy, Rebac.CleanEntry;
    if |policies| == 0 {
      return Ok(map[]);
    }
    var todo := policies.Keys;
    while todo != {}
      invariant todo <= policies.Keys
      invariant forall k :: k in policies && k !in todo ==>
          Norm(k) != "" && Norm(k) in actions && ValidRelationPolicy(policies[k])
    {
      var k :| k in todo;
      todo := todo - {k};
      if Norm(k) == "" || Norm(k) !in actions {
        return Err("rebac policy action is not referenced by any route policy");
      }
      var valid := ValidateRelationPolicy(policies[k]);
      if !valid {
        return Err("invalid rebac policy");
      }
    }
    var normalized := Rebac.NormalizePolicies(policies);
    return Ok(normalized);
  }

  // ----- bundles -----

  ghost function BundleActions(bundle: Bundle): set<string>
    requires AllDefined(bundle.routes)
  {
    set d | d in bundle.routes :: RouteOf(d).action
  }

  /** The bundles the compiler accepts. */
  ghost predicate WellFormedBundle(bundle: Bundle) {
    && Trim(bundle.schemaVersion) == SCHEMA_V1
    && WellFormedRoutes(bundle.routes)
    && WellFormedRoles(bundle.roles, BundleActions(bundle))
    && WellFormedAttributes(bundle.attributes, BundleActions(bundle))
    && WellFormedRelations(bundle.relations, BundleActions(bundle))
  }

  /** What it may turn an accepted bundle into; keys that clash once cleaned leave a choice. */
  ghost predicate CompilesTo(bundle: Bundle, c: Compiled) {
    && AllDefined(bundle.routes)
    && RoutesCompiled(bundle.routes, c.routes)
    && Rekeyed(bundle.roles, c.roles, CompiledGrant)
    && Rekeyed(bundle.attributes, c.attributes, Abac.CleanEntry)
    && Rekeyed(bundle.relations, c.relations, Rebac.CleanEntry)
  }

  lemma RouteOfClean(d: RouteDefinition)
    requires NormalizeDefinition(d).Some?
    ensures RouteOf(d).action != "" && Normal(RouteOf(d).action)
  {
    NormIdempotent(d.action);
  }

  lemma RouteActions(definitions: seq<RouteDefinition>, routes: map<string, Route>)
    requires AllDefined(definitions) && RoutesCompiled(definitions, routes)
    ensures Actions(routes) == set d | d in definitions :: RouteOf(d).action
    ensures forall a :: a in Actions(routes) ==> a != "" && Normal(a)
  {
    hide KeyOf, RouteOf, NormalizeDefinition;
    forall a
      ensures a in Actions(routes) <==> exists d :: d in definitions && RouteOf(d).action == a
    {
      if a in Actions(routes) {
        var key :| key in routes && routes[key].action == a;
        var d :| d in definitions && KeyOf(d) == key;
      }
      if d :| d in definitions && RouteOf(d).action == a {
        assert KeyOf(d) in routes;
      }
    }
    forall a | a in Actions(routes)
      ensures a != "" && Normal(a)
    {
      var d :| d in definitions && RouteOf(d).action == a;
      RouteOfClean(d);
    }
  }

  method CompileBundle(bundle: Bundle) returns (r: Result<Compiled>)
    ensures r.Ok? <==> WellFormedBundle(bundle)
    ensures r.Ok? ==> CompilesTo(bundle, r.value)
  {
    hide WellFormedRoles, WellFormedAttributes, WellFormedRelations, RouteOf, Trim;
    if Trim(bundle.schemaVersion) != SCHEMA_V1 {
      return Err("unsupported policy bundle schema version");
    }
    var routes, actions := CompileRoutes(bundle.routes);
    if routes.Err? {
      return Err(routes.message);
    }
    RouteActions(bundle.routes, routes.value);
    assert actions == BundleActions(bundle);
    var roles := CompileRoles(bundle.roles, actions);
    if roles.Err? {
      return Err(roles.message);
    }
    var attributes := CompileAttributes(bundle.attributes, actions);
    if attributes.Err? {
      return Err(attributes.message);
    }
    var relations := CompileRelations(bundle.relations, actions);
    if relations.Err? {
      return Err(relations.message);
    }
    return Ok(Compiled(routes.value, roles.value, attributes.value, relations.value));
  }

  /** Raw JSON text: blank text and text the decoder rejects are errors. */
  method CompileText(raw: string, decode: string -> Option<Bundle>) returns (r: Result<Compiled>)
    ensures r.Ok? <==> AcceptsText(raw, decode)
    ensures r.Ok? ==> CompilesTo(decode(Trim(raw)).value, r.value)
  {
    hide WellFormedBundle, CompilesTo;
    var trimmed := Trim(raw);
    if trimmed == "" {
      return Err("policy bundle is empty");
    }
    var decoded := decode(trimmed);
    if decoded.None? {
      return Err("decode policy bundle json");
    }
    r := CompileBundle(decoded.value);
  }

  ghost predicate AcceptsText(raw: string, decode: string -> Option<Bundle>) {
    Trim(raw) != "" && decode(Trim(raw)).Some? && WellFormedBundle(decode(Trim(raw)).value)
  }

  // ----- compiled policies -----

  ghost predicate CleanAttributes(policies: map<string, AttributePolicy>) {
    forall a :: a in policies ==> Abac.CleanPolicy(policies[a]) == policies[a]
  }

  ghost predicate CleanRelations(policies: map<string, RelationPolicy>) {
    forall a :: a in policies ==> Rebac.CleanPaths(policies[a].anyOf) == policies[a].anyOf
  }

  ghost predicate CleanRoles(grants: map<string, seq<string>>) {
    forall a :: a in grants ==> grants[a] != [] && grants[a] == CanonicalRoles(grants[a])
  }

  /** Route actions, role keys and attribute keys are the same clean names, relation keys
      are among them, no grant is empty, and every entry is in normal form. */
  ghost predicate WellFormed(c: Compiled) {
    && (forall a :: a in Actions(c.routes) ==> a != "" && Normal(a))
    && c.roles.Keys == Actions(c.routes)
    && c.attributes.Keys == Actions(c.routes)
    && c.relations.Keys <= Actions(c.routes)
    && CleanRoles(c.roles) && CleanAttributes(c.attributes) && CleanRelations(c.relations)
  }

  lemma CanonicalRolesAgain(roles: seq<string>)
    ensures Rbac.RoleSet(CanonicalRoles(roles)) == Rbac.RoleSet(roles)
    ensures CanonicalRoles(CanonicalRoles(roles)) == CanonicalRoles(roles)
  {
    CanonicalRolesList(roles);
    var canonical := CanonicalRoles(roles);
    forall v
      ensures v in Rbac.RoleSet(canonical) <==> v in Rbac.RoleSet(roles)
    {
      if v in Rbac.RoleSet(roles) {
        var r :| r in roles && Norm(r) == v;
        NormIdempotent(r);
        assert v in Elements(canonical);
      }
      if v in Rbac.RoleSet(canonical) {
        var r :| r in canonical && Norm(r) == v;
        assert r in Elements(canonical);
        var s :| s in roles && Norm(s) == r;
        NormIdempotent(s);
      }
    }
    CanonicalRolesList(canonical);
    ListsUnique(canonical, CanonicalRoles(canonical), Rbac.RoleSet(roles));
  }

  /** Grants equal up to order, repeats, case and white space compile to equal lists, and
      only those do. */
  lemma CanonicalRolesExact(a: seq<string>, b: seq<string>)
    ensures CanonicalRoles(a) == CanonicalRoles(b) <==> Rbac.RoleSet(a) == Rbac.RoleSet(b)
  {
    CanonicalRolesAgain(a);
    CanonicalRolesAgain(b);
    CanonicalRolesList(a);
    CanonicalRolesList(b);
    if Rbac.RoleSet(a) == Rbac.RoleSet(b) {
      ListsUnique(CanonicalRoles(a), CanonicalRoles(b), Rbac.RoleSet(a));
    }
  }

  /** Every accepted bundle compiles to a well-formed policy. */
  lemma CompiledWellFormed(bundle: Bundle, c: Compiled)
    requires WellFormedBundle(bundle) && CompilesTo(bundle, c)
    ensures WellFormed(c) && Actions(c.routes) == BundleActions(bundle)
  {
    hide Norm, RouteOf, KeyOf, NormalizeDefinition, Abac.ValidPolicy, ValidRelationPolicy, Trim;
    hide CanonicalRoles, CleanAttributes, CleanRelations, CleanRoles, RekeyedSoFar, Normal;
    RouteActions(bundle.routes, c.routes);
    RekeyedCover(bundle.roles, c.roles, CompiledGrant, Actions(c.routes));
    RekeyedCover(bundle.attributes, c.attributes, Abac.CleanEntry, Actions(c.routes));
    CompiledRolesClean(bundle.roles, c.roles);
    CompiledAttributesClean(bundle.attributes, c.attributes);
    CompiledRelationsClean(bundle.relations, c.relations);
    RekeyedKnown(bundle.relations, c.relations, Rebac.CleanEntry, Actions(c.routes));
  }

  lemma RekeyedKnown<V, W>(raw: map<string, V>, out: map<string, W>, clean: V -> Option<W>, actions: set<string>)
    requires KeysKnown(raw, actions) && Rekeyed(raw, out, clean)
    ensures out.Keys <= actions
  {
    hide Norm, RekeyedSoFar;
    forall a | a in out
      ensures a in actions
    {
      var k := RekeyedFrom(raw, out, clean, a);
    }
  }

  lemma RekeyedCover<V, W>(raw: map<string, V>, out: map<string, W>, clean: V -> Option<W>, actions: set<string>)
    requires Covers(raw, actions) && Rekeyed(raw, out, clean) && forall k :: k in raw ==> clean(raw[k]).Some?
    ensures out.Keys == actions
  {
    hide Norm, RekeyedSoFar;
    RekeyedKnown(raw, out, clean, actions);
    forall a | a in actions
      ensures a in out
    {
      var k :| k in raw && Norm(k) == a;
      RekeyedHas(raw, out, clean, k);
    }
  }

  lemma CompiledRolesClean(raw: map<string, seq<string>>, out: map<string, seq<string>>)
    requires Rekeyed(raw, out, CompiledGrant)
    ensures CleanRoles(out)
  {
    hide Norm, CanonicalRoles, Rbac.RoleSet;
    forall a | a in out
      ensures out[a] != [] && out[a] == CanonicalRoles(out[a])
    {
      var k :| k in raw && RekeysTo(raw, k, a, out[a], CompiledGrant);
      CanonicalRolesAgain(raw[k]);
      CanonicalRolesList(raw[k]);
      NoElements(out[a]);
    }
  }

  lemma CompiledAttributesClean(raw: map<string, AttributePolicy>, out: map<string, AttributePolicy>)
    requires Rekeyed(raw, out, Abac.CleanEntry)
    ensures CleanAttributes(out)
  {
    hide Norm, Abac.CleanPolicy;
    forall a | a in out
      ensures Abac.CleanPolicy(out[a]) == out[a]
    {
      var k :| k in raw && RekeysTo(raw, k, a, out[a], Abac.CleanEntry);
      Abac.CleanPolicyIdempotent(raw[k]);
    }
  }

  lemma CompiledRelationsClean(raw: map<string, RelationPolicy>, out: map<string, RelationPolicy>)
    requires Rekeyed(raw, out, Rebac.CleanEntry)
    ensures CleanRelations(out)
  {
    hide Norm, Rebac.CleanPaths;
    forall a | a in out
      ensures Rebac.CleanPaths(out[a].anyOf) == out[a].anyOf
    {
      var k :| k in raw && RekeysTo(raw, k, a, out[a], Rebac.CleanEntry);
      Rebac.CleanPathsIdempotent(raw[k].anyOf);
    }
  }

  /** Bundles whose keys stay distinct once cleaned. */
  ghost predicate NoClashes(bundle: Bundle) {
    NoKeyClash(bundle.roles) && NoKeyClash(bundle.attributes) && NoKeyClash(bundle.relations)
  }

  /** Without clashing keys compilation has a single result, whatever order the maps are
      ranged over in. */
  lemma CompilationDeterministic(bundle: Bundle, c: Compiled, d: Compiled)
    requires NoClashes(bundle) && CompilesTo(bundle, c) && CompilesTo(bundle, d)
    ensures c == d
  {
    RoutesUnique(bundle.routes, c.routes, d.routes);
    RekeyedUnique(bundle.roles, c.roles, d.roles, CompiledGrant);
    RekeyedUnique(bundle.attributes, c.attributes, d.attributes, Abac.CleanEntry);
    RekeyedUnique(bundle.relations, c.relations, d.relations, Rebac.CleanEntry);
  }

  lemma RekeyedUnique<V, W>(raw: map<string, V>, a: map<string, W>, b: map<string, W>, clean: V -> Option<W>)
    requires NoKeyClash(raw) && Rekeyed(raw, a, clean) && Rekeyed(raw, b, clean)
    ensures a == b
  {
    hide Norm;
    forall x
      ensures x in a <==> x in b
      ensures x in a ==> x in b && a[x] == b[x]
    {
      if x in a {
        var k :| k in raw && RekeysTo(raw, k, x, a[x], clean);
        RekeyedNoClash(raw, b, clean, k);
      }
      if x in b {
        var k :| k in raw && RekeysTo(raw, k, x, b[x], clean);
        RekeyedNoClash(raw, a, clean, k);
      }
    }
  }
}
