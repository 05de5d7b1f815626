/** Scope isolation and role grants, the first two stages of the engine. */
module Rbac {
  import opened Text
  import opened Lists
  import opened Policy

  // ----- tenant isolation -----

  function TargetTenant(input: Input): string {
    FirstNonEmpty(input.resource.tenantId, Attribute(input.context.attributes, TENANT_ID_KEY))
  }

  function TargetWorkspace(input: Input): string {
    FirstNonEmpty(input.resource.workspaceId, Attribute(input.context.attributes, WORKSPACE_ID_KEY))
  }

  /** Both scopes are known and differ. */
  predicate Conflict(mine: string, target: string) {
    Trim(mine) != "" && target != "" && Trim(mine) != target
  }

  predicate ScopesConflict(input: Input) {
    || Conflict(input.subject.tenantId, TargetTenant(input))
    || Conflict(input.subject.workspaceId, TargetWorkspace(input))
  }

  function IsolationOutcome(input: Input): Outcome {
    if ScopesConflict(input) then Deny else NoOpinion
  }

  /** Both names are given and differ. */
  predicate Apart(mine: string, theirs: string) {
    Trim(mine) != "" && Trim(theirs) != "" && Trim(mine) != Trim(theirs)
  }

  /** Main result, field by field: a request is denied exactly when its subject belongs to
      another tenant or workspace than the one the resource names or, where the resource
      names none, the one in the request's context. */
  lemma IsolationExact(input: Input)
    ensures var subject, resource, context := input.subject, input.resource, input.context.attributes;
        IsolationOutcome(input) ==
        if Apart(subject.tenantId, resource.tenantId) || Apart(subject.workspaceId, resource.workspaceId) then Deny
        else if Trim(resource.tenantId) == "" && "tenant_id" in context
                && Apart(subject.tenantId, context["tenant_id"]) then Deny
        else if Trim(resource.workspaceId) == "" && "workspace_id" in context
                && Apart(subject.workspaceId, context["workspace_id"]) then Deny
        else NoOpinion
  {
    hide Trim;
  }

  // ----- role grants -----

  /** Cleaned, non-blank roles. */
  function RoleSet(roles: seq<string>): set<string> {
    set r | r in roles && Norm(r) != "" :: Norm(r)
  }

  function GrantEntry(roles: seq<string>): Option<set<string>> {
    if RoleSet(roles) == {} then None else Some(RoleSet(roles))
  }

  method CollectRoles(roles: seq<string>) returns (roleSet: set<string>)
    ensures roleSet == RoleSet(roles)
  {
    roleSet := {};
    for i := 0 to |roles|
      invariant roleSet == RoleSet(roles[..i])
    {
      assert roles[..i + 1] == roles[..i] + [roles[i]];
      if Norm(roles[i]) != "" {
        roleSet := roleSet + {Norm(roles[i])};
      }
    }
    assert roles[..|roles|] == roles;
  }

  method NormalizeGrants(grants: map<string, seq<string>>) returns (actionRoles: map<string, set<string>>)
    ensures Rekeyed(grants, actionRoles, GrantEntry)
  {
    hide Norm, RoleSet, RekeyedSoFar;
    actionRoles := map[];
    var todo := grants.Keys;
    RekeyNone(grants, actionRoles, GrantEntry);
    while todo != {}
      invariant todo <= grants.Keys
      invariant RekeyedSoFar(grants, grants.Keys - todo, actionRoles, GrantEntry)
    {
      var k :| k in todo;
      assert grants.Keys - (todo - {k}) == grants.Keys - todo + {k};
      var roleSet := CollectRoles(grants[k]);
      if Norm(k) != "" && roleSet != {} {
        RekeyNext(grants, grants.Keys - todo, actionRoles, GrantEntry, k, roleSet);
        actionRoles := actionRoles[Norm(k) := roleSet];
      } else {
        RekeySkip(grants, grants.Keys - todo, actionRoles, GrantEntry, k);
      }
      todo := todo - {k};
    }
    assert grants.Keys - todo == grants.Keys;
  }

  ghost predicate HasRole(subjectRoles: seq<string>, allowed: set<string>) {
    RoleSet(subjectRoles) * allowed != {}
  }

  method SubjectHasAnyRole(subjectRoles: seq<string>, allowed: set<string>) returns (found: bool)
    ensures found == HasRole(subjectRoles, allowed)
  {
    for i := 0 to |subjectRoles|
      invariant !HasRole(subjectRoles[..i], allowed)
    {
      hide Norm;
      var role := Norm(subjectRoles[i]);
      if role != "" && role in allowed {
        assert role in RoleSet(subjectRoles) * allowed;
        return true;
      }
      assert subjectRoles[..i + 1] == subjectRoles[..i] + [subjectRoles[i]];
    }
    assert subjectRoles[..|subjectRoles|] == subjectRoles;
    return false;
  }

  /** The gate denies a mapped action to a subject without a granted role and has no
      opinion otherwise. */
  ghost function GateOutcome(actionRoles: map<string, set<string>>, input: Input): Outcome {
    var action := Norm(input.action);
    if action != "" && action in actionRoles && !HasRole(input.subject.roles, actionRoles[action]) then Deny
    else NoOpinion
  }

  /** Main result, field by field: the gate denies exactly when the action has a grant and no
      role of the subject is spelled like a granted one, up to case and outer white space. */
  lemma GateExact(actionRoles: map<string, set<string>>, granted: seq<string>, input: Input)
    requires Norm(input.action) in actionRoles ==> actionRoles[Norm(input.action)] == RoleSet(granted)
    ensures GateOutcome(actionRoles, input) ==
        if Norm(input.action) != "" && Norm(input.action) in actionRoles
          && (forall r, g :: r in input.subject.roles && g in granted ==> Norm(r) != Norm(g) || Norm(g) == "")
        then Deny else NoOpinion
  {
    hide Norm;
    if r, g :| r in input.subject.roles && g in granted && Norm(r) == Norm(g) != "" {
      assert Norm(r) in RoleSet(input.subject.roles) * RoleSet(granted);
    }
  }

  method EvaluateGate(actionRoles: map<string, set<string>>, input: Input)
    returns (outcome: Outcome, reason: string)
    ensures outcome == GateOutcome(actionRoles, input)
  {
    if |actionRoles| == 0 {
      return NoOpinion, "";
    }
    var action := Norm(input.action);
    if action == "" || action !in actionRoles {
      return NoOpinion, "";
    }
    var granted := SubjectHasAnyRole(input.subject.roles, actionRoles[action]);
    if granted {
      return NoOpinion, "";
    }
    return Deny, "rbac role does not grant action";
  }
}
