/** The roles a request acts with: workspace membership decides for users, scopes and token
    claims only where no membership can be looked up. */
module Roles {
  import opened Text
  import opened Lists
  import opened Policy
  import opened Engine
  import Rbac
  import Abac
  import Walk
  import Compile
  import Meaning

  const SCOPE_READ := "read"
  const SCOPE_WRITE := "write"
  const SCOPE_ADMIN := "admin"
  const AUTHENTICATED := "authenticated"
  const OWNER := "owner"
  const TENANCY_OWNER := "tenancy.owner"

  const SCOPE_ROLES := [SCOPE_ADMIN, SCOPE_WRITE, SCOPE_READ]
  const MEMBER_ROLES := [OWNER, "admin", "analyst", "viewer"]
  const CLAIM_ROLES := [AUTHENTICATED] + MEMBER_ROLES + [SCOPE_READ, SCOPE_WRITE]

  /** What the authentication layer recorded about a request. */
  datatype Auth = Auth(
    session: bool, subject: string, tenantId: string, workspaceId: string,
    scopes: set<string>, claims: seq<string>, apiKey: string)

  datatype Membership = LookupFailed | NoMember | Member(status: string, role: string)

  /** The store's answer for a user in a workspace; it sees neither claims nor scopes. */
  type Directory = (bool, string, string, string) -> Membership

  datatype Keys = Keys(writeKeys: seq<string>, scopedMode: bool)

  /** Admin implies every scope, write implies read. */
  predicate HasScope(scopes: set<string>, required: string) {
    SCOPE_ADMIN in scopes || (required == SCOPE_READ && SCOPE_WRITE in scopes) || required in scopes
  }

  /** A store, a user subject and a workspace scope: only then is membership looked up. */
  predicate Eligible(auth: Auth, directory: Option<Directory>) {
    directory.Some? && Trim(auth.subject) != "" && Trim(auth.tenantId) != "" && Trim(auth.workspaceId) != ""
  }

  function TrustedMembership(auth: Auth, directory: Option<Directory>): Membership {
    if Eligible(auth, directory) then
      directory.value(auth.session, Trim(auth.subject), auth.tenantId, auth.workspaceId)
    else NoMember
  }

  predicate Active(member: Membership) {
    member.Member? && Norm(member.status) == "active"
  }

  function MemberRole(member: Membership): set<string> {
    if Active(member) && Norm(member.role) != "" then {Norm(member.role)} else {}
  }

  function ScopeRoles(auth: Auth): set<string> {
    set r | r in SCOPE_ROLES && HasScope(auth.scopes, r)
  }

  function ClaimedRoles(claims: seq<string>): set<string> {
    set c | c in claims && Norm(c) in CLAIM_ROLES :: Norm(c)
  }

  function ApiKeyRoles(auth: Auth, keys: Keys): set<string> {
    var key := Trim(auth.apiKey);
    if key == "" || keys.scopedMode then {}
    else if key in keys.writeKeys then {SCOPE_READ, SCOPE_WRITE}
    else {SCOPE_READ}
  }

  /** What is left of scopes and claims when no membership row speaks. */
  function Unclaimed(auth: Auth, directory: Option<Directory>): set<string> {
    var named := ScopeRoles(auth) + ClaimedRoles(auth.claims);
    if Eligible(auth, directory) then named - Elements(MEMBER_ROLES) + {AUTHENTICATED} else named
  }

  /** The roles of a request, in closed form. */
  function RolesOf(auth: Auth, keys: Keys, directory: Option<Directory>): set<string> {
    match TrustedMembership(auth, directory)
    case LookupFailed => {AUTHENTICATED}
    case Member(_, _) => {AUTHENTICATED} + MemberRole(TrustedMembership(auth, directory))
    case NoMember =>
      if Unclaimed(auth, directory) == {} then ApiKeyRoles(auth, keys) else Unclaimed(auth, directory)
  }

  // ----- the computation -----

  method CollectClaims(claims: seq<string>, scopeRoles: set<string>) returns (roles: set<string>)
    ensures roles == scopeRoles + ClaimedRoles(claims)
  {
    hide Norm;
    roles := scopeRoles;
    for i := 0 to |claims|
      invariant roles == scopeRoles + ClaimedRoles(claims[..i])
    {
      assert claims[..i + 1] == claims[..i] + [claims[i]];
      var normalized := Norm(claims[i]);
      if normalized in CLAIM_ROLES {
        roles := roles + {normalized};
      }
    }
    assert claims[..|claims|] == claims;
  }

  method CollectScopes(scopes: set<string>) returns (roles: set<string>)
    ensures roles == set r | r in SCOPE_ROLES && HasScope(scopes, r)
  {
    roles := {};
    for i := 0 to |SCOPE_ROLES|
      invariant roles == set r | r in SCOPE_ROLES[..i] && HasScope(scopes, r)
    {
      assert SCOPE_ROLES[..i + 1] == SCOPE_ROLES[..i] + [SCOPE_ROLES[i]];
      if HasScope(scopes, SCOPE_ROLES[i]) {
        roles := roles + {SCOPE_ROLES[i]};
      }
    }
    assert SCOPE_ROLES[..|SCOPE_ROLES|] == SCOPE_ROLES;
  }

  method DeleteAll(roles: set<string>, names: seq<string>) returns (rest: set<string>)
    ensures rest == roles - Elements(names)
  {
    rest := roles;
    for i := 0 to |names|
      invariant rest == roles - Elements(names[..i])
    {
      assert names[..i + 1] == names[..i] + [names[i]];
      rest := rest - {names[i]};
    }
    assert names[..|names|] == names;
  }

  lemma NamedRolesCleared(auth: Auth)
    ensures ScopeRoles(auth) + ClaimedRoles(auth.claims) - Elements(MEMBER_ROLES + SCOPE_ROLES) <= {AUTHENTICATED}
  {
    hide Norm, HasScope;
    forall r | r in ScopeRoles(auth) + ClaimedRoles(auth.claims)
      ensures r in Elements(MEMBER_ROLES + SCOPE_ROLES) || r == AUTHENTICATED
    {
      if r in ClaimedRoles(auth.claims) {
        assert r in CLAIM_ROLES;
      } else {
        assert r in SCOPE_ROLES;
      }
    }
  }

  /** Membership replaces every scope, claim and workspace role. */
  method RolesOfMember(roles: set<string>, member: Membership) returns (kept: set<string>)
    requires member.Member? && roles - Elements(MEMBER_ROLES + SCOPE_ROLES) <= {AUTHENTICATED}
    ensures kept == {AUTHENTICATED} + MemberRole(member)
  {
    hide Norm;
    kept := DeleteAll(roles, MEMBER_ROLES + SCOPE_ROLES);
    kept := kept + {AUTHENTICATED};
    if Active(member) {
      var role := Norm(member.role);
      if role != "" {
        kept := kept + {role};
      }
    }
  }

  method RolesOfStranger(roles: set<string>) returns (kept: set<string>)
    ensures kept == roles - Elements(MEMBER_ROLES) + {AUTHENTICATED}
  {
    kept := roles + {AUTHENTICATED};
    NotMemberRole();
    kept := DeleteAll(kept, MEMBER_ROLES);
  }

  method RolesOfApiKey(auth: Auth, keys: Keys) returns (result: seq<string>)
    ensures Compile.IsRoleList(result, ApiKeyRoles(auth, keys))
  {
    hide Trim;
    var legacyKey := Trim(auth.apiKey);
    if legacyKey == "" || keys.scopedMode {
      return [];
    }
    result := [SCOPE_READ];
    if legacyKey in keys.writeKeys {
      result := result + [SCOPE_WRITE];
    }
    LegacyList(result);
  }

  /** The roles list of a request: ascending, without repeats, exactly `RolesOf`. */
  method PolicyRoles(auth: Auth, keys: Keys, directory: Option<Directory>) returns (result: seq<string>)
    ensures Compile.IsRoleList(result, RolesOf(auth, keys, directory))
  {
    hide Norm, Trim, HasScope, ClaimedRoles, MemberRole, Eligible, ApiKeyRoles;
    var scopeRoles := CollectScopes(auth.scopes);
    var roles := CollectClaims(auth.claims, scopeRoles);
    var member := TrustedMembership(auth, directory);
    if member.LookupFailed? {
      return [AUTHENTICATED];
    }
    if member.Member? {
      NamedRolesCleared(auth);
      roles := RolesOfMember(roles, member);
    } else if Eligible(auth, directory) {
      roles := RolesOfStranger(roles);
    }
    if |roles| > 0 {
      result := Compile.SortRoles(roles);
    } else {
      result := RolesOfApiKey(auth, keys);
    }
  }

  lemma NotMemberRole()
    ensures AUTHENTICATED !in Elements(MEMBER_ROLES)
  {
  }

  lemma LegacyList(result: seq<string>)
    requires result == [SCOPE_READ] || result == [SCOPE_READ] + [SCOPE_WRITE]
    ensures Compile.IsRoleList(result, if |result| == 1 then {SCOPE_READ} else {SCOPE_READ, SCOPE_WRITE})
  {
    assert StringLe(SCOPE_READ, SCOPE_WRITE);
  }

  // ----- what membership guarantees -----

  /** Main result: once a membership row is found, token claims, scopes and API keys do not
      influence the roles, and so no decision: requests of one user in one workspace that agree
      otherwise are decided alike by every engine. */
  lemma ClaimsDoNotMatter(
      a: Auth, b: Auth, keys: Keys, others: Keys, directory: Option<Directory>, r: seq<string>, q: seq<string>,
      engine: Engine, input: Input, allowed: bool, stage: Stage)
    requires TrustedMembership(a, directory).Member?
    requires b == a.(scopes := b.scopes, claims := b.claims, apiKey := b.apiKey)
    requires Compile.IsRoleList(r, RolesOf(a, keys, directory))
    requires Compile.IsRoleList(q, RolesOf(b, others, directory))
    ensures r == q && Elements(r) == {AUTHENTICATED} + MemberRole(TrustedMembership(a, directory))
    ensures MayDecide(engine, Meaning.WithRoles(input, r), allowed, stage) <==>
        MayDecide(engine, Meaning.WithRoles(input, q), allowed, stage)
  {
    hide Trim, Active, MayDecide;
    Compile.ListsUnique(r, q, RolesOf(a, keys, directory));
  }

  /** Claims of the role "owner". */
  predicate ClaimsOwner(auth: Auth) {
    exists c :: c in auth.claims && Norm(c) == OWNER
  }

  predicate ActiveOwner(member: Membership) {
    Active(member) && Norm(member.role) == OWNER
  }

  /** Exactly who acts as an owner. A claimed owner role counts only where no membership
      can be looked up at all. */
  lemma OwnerExact(auth: Auth, keys: Keys, directory: Option<Directory>)
    ensures OWNER in RolesOf(auth, keys, directory) <==>
        if Eligible(auth, directory) then ActiveOwner(TrustedMembership(auth, directory)) else ClaimsOwner(auth)
  {
    hide Norm, Trim;
    OwnerClaimed(auth);
    assert OWNER in Elements(MEMBER_ROLES);
    assert OWNER !in ScopeRoles(auth) by {
      assert OWNER !in SCOPE_ROLES;
    }
  }

  lemma OwnerClaimed(auth: Auth)
    ensures OWNER in ClaimedRoles(auth.claims) <==> ClaimsOwner(auth)
  {
    hide Norm;
    assert OWNER in CLAIM_ROLES;
  }

  /** Main result: where membership can be looked up, a policy that grants "tenancy.owner" to
      owners only allows it to active owners only. */
  lemma OnlyOwnersOwn(
      store: Option<Walk.Store>, c: Compiled, input: Input, stage: Stage, auth: Auth, keys: Keys,
      directory: Option<Directory>)
    requires Compile.WellFormed(c) && Meaning.ValidTuples(store)
    requires TENANCY_OWNER in c.roles ==> c.roles[TENANCY_OWNER] == [OWNER]
    requires Norm(input.action) == TENANCY_OWNER && Eligible(auth, directory)
    requires Compile.IsRoleList(input.subject.roles, RolesOf(auth, keys, directory))
    requires MayDecide(Meaning.EngineOf(store, c), input, true, stage)
    ensures ActiveOwner(TrustedMembership(auth, directory))
  {
    OwnerGate(store, c, input, stage);
    RolesClean(auth, keys, directory, input.subject.roles);
    OwnerExact(auth, keys, directory);
  }

  lemma OwnerGate(store: Option<Walk.Store>, c: Compiled, input: Input, stage: Stage)
    requires Compile.WellFormed(c) && Meaning.ValidTuples(store)
    requires TENANCY_OWNER in c.roles ==> c.roles[TENANCY_OWNER] == [OWNER]
    requires Norm(input.action) == TENANCY_OWNER
    requires MayDecide(Meaning.EngineOf(store, c), input, true, stage)
    ensures OWNER in Rbac.RoleSet(input.subject.roles)
  {
    hide Norm, Compile.WellFormed, Meaning.ValidTuples, Meaning.EngineOf, Meaning.RelationsGrant, Abac.PolicyOutcome;
    hide Rbac.ScopesConflict, MayDecide;
    Meaning.DecisionMeaning(store, c, input, true, stage);
    LettersNormal(OWNER);
    assert Rbac.RoleSet([OWNER]) == {OWNER};
  }

  /** Every role in the list is already clean. */
  lemma RolesClean(auth: Auth, keys: Keys, directory: Option<Directory>, roles: seq<string>)
    requires Compile.IsRoleList(roles, RolesOf(auth, keys, directory))
    ensures Rbac.RoleSet(roles) == RolesOf(auth, keys, directory)
  {
    forall r | r in RolesOf(auth, keys, directory)
      ensures Norm(r) == r && r != ""
    {
      RoleClean(auth, keys, directory, r);
    }
    hide RolesOf, Norm;
    assert forall r :: r in roles <==> r in RolesOf(auth, keys, directory);
  }

  lemma NameClean(r: string)
    requires r in CLAIM_ROLES || r in SCOPE_ROLES
    ensures Norm(r) == r && r != ""
  {
    hide Norm;
    LettersNormal(r);
  }

  lemma RoleClean(auth: Auth, keys: Keys, directory: Option<Directory>, r: string)
    requires r in RolesOf(auth, keys, directory)
    ensures Norm(r) == r && r != ""
  {
    hide Norm, Trim, HasScope, Active;
    var member := TrustedMembership(auth, directory);
    if member.Member? && r in MemberRole(member) {
      NormIdempotent(member.role);
    } else {
      assert r in CLAIM_ROLES || r in SCOPE_ROLES;
      NameClean(r);
    }
  }

  // ----- subjects without a membership row -----

  /** Exactly whose membership is looked up: a user's with a subject, a tenant and a workspace
      in their session or token, by session kind, trimmed subject and scope. */
  lemma LookupExact(auth: Auth, lookup: Directory)
    ensures TrustedMembership(auth, None) == NoMember && !Eligible(auth, None)
    ensures var complete := Trim(auth.subject) != "" && Trim(auth.tenantId) != "" && Trim(auth.workspaceId) != "";
        && (Eligible(auth, Some(lookup)) <==> complete)
        && (complete ==>
              TrustedMembership(auth, Some(lookup))
              == lookup(auth.session, Trim(auth.subject), auth.tenantId, auth.workspaceId))
        && (!complete ==> forall keys :: RolesOf(auth, keys, Some(lookup)) == RolesOf(auth, keys, None))
  {
    hide Trim, Norm, ClaimedRoles, ScopeRoles, ApiKeyRoles;
  }

  /** The roles of a user with a membership row, and of one whose lookup failed. */
  lemma MemberActsAs(auth: Auth, keys: Keys, directory: Option<Directory>)
    ensures match TrustedMembership(auth, directory)
        case LookupFailed => RolesOf(auth, keys, directory) == {"authenticated"}
        case Member(status, role) =>
          RolesOf(auth, keys, directory) ==
            if Norm(status) == "active" && Norm(role) != "" then {"authenticated", Norm(role)} else {"authenticated"}
        case NoMember => true
  {
    hide Norm, Trim, ScopeRoles, ClaimedRoles, ApiKeyRoles;
  }

  /** A user without a membership row keeps the generic role and the read and write roles
      their scopes or claims name, nothing else. The scope "admin" counts as both, the scope
      "write" as both, the scope "read" as itself. */
  lemma NonMemberRoles(auth: Auth, keys: Keys, directory: Option<Directory>, r: string)
    requires Eligible(auth, directory) && TrustedMembership(auth, directory).NoMember?
    ensures r in RolesOf(auth, keys, directory) <==>
        || r == "authenticated"
        || (r == "write" && ("write" in auth.scopes || "admin" in auth.scopes))
        || (r == "read" && ("read" in auth.scopes || "write" in auth.scopes || "admin" in auth.scopes))
        || (r in {"read", "write"} && exists c :: c in auth.claims && Norm(c) == r)
  {
    ScopeExact(auth, r);
    hide Norm, Trim, HasScope;
  }

  /** The role a scope list gives on its own. */
  lemma ScopeExact(auth: Auth, r: string)
    ensures r in ScopeRoles(auth) <==>
        || (r == "admin" && "admin" in auth.scopes)
        || (r == "write" && ("write" in auth.scopes || "admin" in auth.scopes))
        || (r == "read" && ("read" in auth.scopes || "write" in auth.scopes || "admin" in auth.scopes))
  {
    assert r in SCOPE_ROLES <==> r == "admin" || r == "write" || r == "read";
  }

  /** The machine scope "admin" shares its name with the workspace role and is dropped with
      it, although scope roles are meant to be retained. */
  lemma AdminScopeDropped(auth: Auth, keys: Keys, directory: Option<Directory>)
    requires Eligible(auth, directory) && TrustedMembership(auth, directory).NoMember?
    ensures SCOPE_ADMIN !in RolesOf(auth, keys, directory)
    ensures SCOPE_ADMIN in auth.scopes ==> SCOPE_ADMIN in ScopeRoles(auth)
  {
    hide Norm, Trim;
    assert SCOPE_ADMIN in Elements(MEMBER_ROLES);
    assert SCOPE_ADMIN in SCOPE_ROLES;
  }

  // ----- machine principals -----

  /** Main result: exactly which roles a principal acts with when no membership is looked up:
      those of its scopes and those its claims name; an API key counts only without any. */
  lemma MachineRoles(auth: Auth, keys: Keys, r: string)
    ensures r in RolesOf(auth, keys, None) <==>
        || (r == "admin" && "admin" in auth.scopes)
        || (r == "write" && ("write" in auth.scopes || "admin" in auth.scopes))
        || (r == "read" && ("read" in auth.scopes || "write" in auth.scopes || "admin" in auth.scopes))
        || (r in {"authenticated", "owner", "admin", "analyst", "viewer", "read", "write"}
            && exists c :: c in auth.claims && Norm(c) == r)
        || (Silent(auth) && Trim(auth.apiKey) != "" && !keys.scopedMode
            && (r == "read" || (r == "write" && Trim(auth.apiKey) in keys.writeKeys)))
  {
    ScopeExact(auth, r);
    ClaimExact(auth, r);
    SilentExact(auth);
    hide Norm, Trim, ScopeRoles, ClaimedRoles, Silent;
  }

  /** Neither scopes nor claims name a role. */
  ghost predicate Silent(auth: Auth) {
    && auth.scopes * {"admin", "write", "read"} == {}
    && forall c :: c in auth.claims ==>
         Norm(c) !in {"authenticated", "owner", "admin", "analyst", "viewer", "read", "write"}
  }

  lemma ClaimExact(auth: Auth, r: string)
    ensures r in ClaimedRoles(auth.claims) <==>
        r in {"authenticated", "owner", "admin", "analyst", "viewer", "read", "write"}
        && exists c :: c in auth.claims && Norm(c) == r
  {
    hide Norm;
    ClaimNames(r);
  }

  lemma ClaimNames(r: string)
    ensures r in CLAIM_ROLES <==> r in {"authenticated", "owner", "admin", "analyst", "viewer", "read", "write"}
  {
  }

  lemma SilentExact(auth: Auth)
    ensures Silent(auth) <==> ScopeRoles(auth) + ClaimedRoles(auth.claims) == {}
  {
    hide Norm, ScopeRoles, ClaimedRoles;
    forall r
      ensures r in ScopeRoles(auth) ==> auth.scopes * {"admin", "write", "read"} != {}
      ensures r in ClaimedRoles(auth.claims) ==> !Silent(auth)
    {
      ScopeExact(auth, r);
      ClaimExact(auth, r);
      if r in ScopeRoles(auth) {
        var q :| q in auth.scopes && q in {"admin", "write", "read"};
        assert q in auth.scopes * {"admin", "write", "read"};
      }
    }
    if q :| q in auth.scopes * {"admin", "write", "read"} {
      ScopeExact(auth, q);
    }
    if c :| c in auth.claims && Norm(c) in {"authenticated", "owner", "admin", "analyst", "viewer", "read", "write"} {
      ClaimExact(auth, Norm(c));
    }
  }

  /** Scopes include the weaker ones. */
  lemma ScopesInclude(auth: Auth)
    ensures SCOPE_ADMIN in ScopeRoles(auth) ==> SCOPE_WRITE in ScopeRoles(auth)
    ensures SCOPE_WRITE in ScopeRoles(auth) ==> SCOPE_READ in ScopeRoles(auth)
    ensures forall r :: r in SCOPE_ROLES && r in auth.scopes ==> r in ScopeRoles(auth)
  {
    assert SCOPE_WRITE in SCOPE_ROLES && SCOPE_READ in SCOPE_ROLES && SCOPE_ADMIN in SCOPE_ROLES;
  }

  /** Exactly when a request acts without any role: it has neither scopes nor recognized
      claims, no membership can be looked up, and no API key stands in. */
  lemma NoRolesExactly(auth: Auth, keys: Keys, directory: Option<Directory>)
    ensures RolesOf(auth, keys, directory) == {} <==>
        && !Eligible(auth, directory) && ScopeRoles(auth) == {} && ClaimedRoles(auth.claims) == {}
        && (Trim(auth.apiKey) == "" || keys.scopedMode)
  {
    hide Trim, Norm, HasScope, ClaimedRoles, MemberRole;
    if Eligible(auth, directory) {
      assert AUTHENTICATED in RolesOf(auth, keys, directory);
    } else if ScopeRoles(auth) + ClaimedRoles(auth.claims) == {} {
      assert ApiKeyRoles(auth, keys) == {} || SCOPE_READ in ApiKeyRoles(auth, keys);
    }
  }

  /** An API key is consulted only when nothing else names a role, and writes only when it is
      listed as a write key. */
  lemma ApiKeyWrites(auth: Auth, keys: Keys, directory: Option<Directory>)
    requires !Eligible(auth, directory) && ScopeRoles(auth) == {} && ClaimedRoles(auth.claims) == {}
    ensures SCOPE_WRITE in RolesOf(auth, keys, directory) <==>
        Trim(auth.apiKey) != "" && !keys.scopedMode && Trim(auth.apiKey) in keys.writeKeys
  {
    hide Trim, Norm, HasScope, ClaimedRoles;
  }
}
