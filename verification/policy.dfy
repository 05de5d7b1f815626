/** Values that flow through the authorization engine: the request under decision and
    the policy documents that decide it. */
module Policy {
  import opened Text
  import opened Lists

  /** Attribute maps never hold two keys that differ only in letter case: their
      producers write lower-case keys, so the case-insensitive lookup has one answer. */
  type Attributes = m: map<string, string> | FoldDistinct(m) witness map[]

  ghost predicate FoldDistinct(m: map<string, string>) {
    forall k, l :: k in m && l in m && Lower(k) == Lower(l) ==> k == l
  }

  datatype Subject = Subject(
    kind: string, id: string, tenantId: string, workspaceId: string, roles: seq<string>, attributes: Attributes)

  datatype Resource = Resource(
    kind: string, id: string, tenantId: string, workspaceId: string, attributes: Attributes)

  datatype Context = Context(requestPath: string, requestMethod: string, attributes: Attributes)

  datatype Input = Input(subject: Subject, action: string, resource: Resource, context: Context)

  datatype Outcome = NoOpinion | Allow | Deny | Skipped | Unrecognized(text: string)

  /** What one evaluator returns: an outcome with a reason, or an error. */
  datatype Evaluation = Evaluated(outcome: Outcome, reason: string) | Failed

  datatype Predicate = Predicate(
    source: string, key: string, operator: string, value: string, values: seq<string>,
    compareSource: string, compareKey: string)

  datatype Clause = Clause(allOf: seq<Predicate>)

  datatype AttributePolicy = AttributePolicy(anyOf: seq<Clause>, onNoMatch: string)

  datatype RelationPath = RelationPath(relations: seq<string>, allOf: seq<Predicate>)

  datatype RelationPolicy = RelationPolicy(anyOf: seq<RelationPath>)

  datatype Route = Route(action: string, resourceType: string, resourceIdParam: string)

  /** A compiled policy as a value. */
  datatype Compiled = Compiled(
    routes: map<string, Route>,
    roles: map<string, seq<string>>,
    attributes: map<string, AttributePolicy>,
    relations: map<string, RelationPolicy>)

  const TENANT_ID_KEY := "tenant_id"
  const WORKSPACE_ID_KEY := "workspace_id"

  function NonBlank(s: string): Option<string> {
    if Trim(s) == "" then None else Some(Trim(s))
  }

  function FirstNonEmpty(primary: string, fallback: string): string {
    if Trim(primary) != "" then Trim(primary) else Trim(fallback)
  }

  /** A Go map read: the zero value when the key is missing. */
  function Attribute(attributes: Attributes, key: string): string {
    if key in attributes then attributes[key] else ""
  }

  function Lookup(attributes: Attributes, key: string): Option<string> {
    if key in attributes then NonBlank(attributes[key])
    else if exists k :: k in attributes && Lower(k) == Lower(key) then
      var k :| k in attributes && Lower(k) == Lower(key);
      NonBlank(attributes[k])
    else None
  }
}
