/** Attribute conditions: evaluation, normalization and validation, and the theorem that
    normalizing once or twice leaves the written meaning of a policy intact. */
module Abac {
  import opened Text
  import opened Lists
  import opened Policy

  const SUBJECT := "subject"
  const RESOURCE := "resource"
  const CONTEXT := "context"

  const EQUALS := "equals"
  const ONE_OF := "one_of"
  const EQUALS_ATTRIBUTE := "equals_attribute"

  const NO_OP := "no_op"
  const ALLOW := "allow"
  const DENY := "deny"

  predicate KnownSource(source: string) {
    source == SUBJECT || source == RESOURCE || source == CONTEXT
  }

  predicate KnownOperator(operator: string) {
    operator == EQUALS || operator == ONE_OF || operator == EQUALS_ATTRIBUTE
  }

  // ----- evaluation -----

  function Resolve(input: Input, source: string, key: string): Option<string> {
    var name := Norm(key);
    if name == "" then None
    else if source == SUBJECT then
      if name == "type" then NonBlank(input.subject.kind)
      else if name == "id" then NonBlank(input.subject.id)
      else if name == "tenant_id" then NonBlank(input.subject.tenantId)
      else if name == "workspace_id" then NonBlank(input.subject.workspaceId)
      else Lookup(input.subject.attributes, name)
    else if source == RESOURCE then
      if name == "type" then NonBlank(input.resource.kind)
      else if name == "id" then NonBlank(input.resource.id)
      else if name == "tenant_id" then NonBlank(input.resource.tenantId)
      else if name == "workspace_id" then NonBlank(input.resource.workspaceId)
      else Lookup(input.resource.attributes, name)
    else if source == CONTEXT then
      if name == "request_path" then NonBlank(input.context.requestPath)
      else if name == "request_method" then NonBlank(input.context.requestMethod)
      else Lookup(input.context.attributes, name)
    else None
  }

  predicate Holds(input: Input, p: Predicate) {
    var left := Resolve(input, p.source, p.key);
    left.Some? &&
    if p.operator == EQUALS then left.value == p.value
    else if p.operator == ONE_OF then left.value in p.values
    else if p.operator == EQUALS_ATTRIBUTE then
      var right := Resolve(input, p.compareSource, p.compareKey);
      right.Some? && left.value == right.value
    else false
  }

  /** Attribute names are looked up without regard to case, whichever spelling is stored. */
  lemma LookupExact(attributes: Attributes, name: string, key: string)
    requires key in attributes && Lower(key) == Lower(name)
    ensures Lookup(attributes, name) == NonBlank(attributes[key])
  {
    hide Lower, Trim;
  }

  // ----- what a condition reads -----

  // Three lemmas reduce every condition to equality with a constant, and five say which field
  // of the request such an equality reads.

  function Equality(source: string, key: string, value: string): Predicate {
    Predicate(source, key, "equals", value, [], "", "")
  }

  /** The list operator is a disjunction of equalities. */
  lemma OneOfExact(input: Input, source: string, key: string, values: seq<string>)
    ensures Holds(input, Predicate(source, key, "one_of", "", values, "", "")) <==>
        exists v :: v in values && Holds(input, Equality(source, key, v))
  {
    hide Resolve;
  }

  /** The comparison operator holds when both sides equal one value. */
  lemma EqualsAttributeExact(input: Input, source: string, key: string, compareSource: string, compareKey: string)
    ensures Holds(input, Predicate(source, key, "equals_attribute", "", [], compareSource, compareKey)) <==>
        exists v :: Holds(input, Equality(source, key, v)) && Holds(input, Equality(compareSource, compareKey, v))
  {
    var left := Resolve(input, source, key);
    hide Resolve;
    if Holds(input, Predicate(source, key, "equals_attribute", "", [], compareSource, compareKey)) {
      assert Holds(input, Equality(source, key, left.value));
    }
  }

  /** Operators read only their own operands; anything else never holds. */
  lemma OperandsExact(input: Input, p: Predicate)
    ensures p.operator == "equals" ==> (Holds(input, p) <==> Holds(input, Equality(p.source, p.key, p.value)))
    ensures p.operator == "one_of" ==>
        (Holds(input, p) <==> Holds(input, Predicate(p.source, p.key, "one_of", "", p.values, "", "")))
    ensures p.operator == "equals_attribute" ==>
        (Holds(input, p) <==>
         Holds(input, Predicate(p.source, p.key, "equals_attribute", "", [], p.compareSource, p.compareKey)))
    ensures p.operator !in {"equals", "one_of", "equals_attribute"} ==> !Holds(input, p)
    ensures p.source !in {"subject", "resource", "context"} || Norm(p.key) == "" ==> !Holds(input, p)
  {
    hide Norm;
  }

  /** Names of attributes may be written in any case. */
  lemma KeySpelling(input: Input, source: string, key: string, v: string)
    ensures Holds(input, Equality(source, key, v)) <==> Holds(input, Equality(source, Norm(key), v))
  {
    NormIdempotent(key);
    hide Norm;
  }

  /** The reserved names of the subject. */
  lemma SubjectFields(input: Input, v: string)
    ensures Holds(input, Equality("subject", "type", v)) <==> Trim(input.subject.kind) == v != ""
    ensures Holds(input, Equality("subject", "id", v)) <==> Trim(input.subject.id) == v != ""
    ensures Holds(input, Equality("subject", "tenant_id", v)) <==> Trim(input.subject.tenantId) == v != ""
    ensures Holds(input, Equality("subject", "workspace_id", v)) <==> Trim(input.subject.workspaceId) == v != ""
  {
    NamesNormal();
    hide Norm, Trim;
  }

  /** The reserved names of the resource. */
  lemma ResourceFields(input: Input, v: string)
    ensures Holds(input, Equality("resource", "type", v)) <==> Trim(input.resource.kind) == v != ""
    ensures Holds(input, Equality("resource", "id", v)) <==> Trim(input.resource.id) == v != ""
    ensures Holds(input, Equality("resource", "tenant_id", v)) <==> Trim(input.resource.tenantId) == v != ""
    ensures Holds(input, Equality("resource", "workspace_id", v)) <==> Trim(input.resource.workspaceId) == v != ""
  {
    NamesNormal();
    hide Norm, Trim;
  }

  /** The reserved names of the context. */
  lemma ContextFields(input: Input, v: string)
    ensures Holds(input, Equality("context", "request_path", v)) <==> Trim(input.context.requestPath) == v != ""
    ensures Holds(input, Equality("context", "request_method", v)) <==> Trim(input.context.requestMethod) == v != ""
  {
    NamesNormal();
    hide Norm, Trim;
  }

  lemma NamesNormal()
    ensures Normal("type") && Normal("id") && Normal("tenant_id") && Normal("workspace_id")
    ensures Normal("request_path") && Normal("request_method")
  {
    hide Norm, Normal;
    LettersNormal("type");
    LettersNormal("id");
    LettersNormal("tenant_id");
    LettersNormal("workspace_id");
    LettersNormal("request_path");
    LettersNormal("request_method");
  }

  /** Every other name reads the attributes of its own source. */
  lemma AttributeFields(input: Input, name: string, v: string)
    requires Normal(name) && name != ""
    ensures name !in {"type", "id", "tenant_id", "workspace_id"} ==>
        && (Holds(input, Equality("subject", name, v)) <==> Carries(input.subject.attributes, name, v))
        && (Holds(input, Equality("resource", name, v)) <==> Carries(input.resource.attributes, name, v))
    ensures name !in {"request_path", "request_method"} ==>
        (Holds(input, Equality("context", name, v)) <==> Carries(input.context.attributes, name, v))
  {
    LookupCarries(input.subject.attributes, name, v);
    LookupCarries(input.resource.attributes, name, v);
    LookupCarries(input.context.attributes, name, v);
    hide Norm, Trim, Lower, Lookup, Carries;
  }

  /** Some spelling of the name has this value, which is not blank. */
  predicate Carries(attributes: Attributes, name: string, v: string) {
    v != "" && exists k :: k in attributes && Lower(k) == Lower(name) && Trim(attributes[k]) == v
  }

  lemma LookupCarries(attributes: Attributes, name: string, v: string)
    ensures Lookup(attributes, name) == Some(v) <==> Carries(attributes, name, v)
  {
    hide Trim, Lower;
  }

  predicate Reserved(name: string) {
    name == "type" || name == "id" || name == "tenant_id" || name == "workspace_id"
  }

  /** Comparing one attribute of subject and resource: both must be present and equal. */
  lemma SameAttribute(input: Input, name: string)
    requires Normal(name) && name != "" && !Reserved(name)
    requires name in input.subject.attributes && name in input.resource.attributes
    ensures Holds(input, Predicate(SUBJECT, name, EQUALS_ATTRIBUTE, "", [], RESOURCE, name)) <==>
        Trim(input.subject.attributes[name]) == Trim(input.resource.attributes[name]) != ""
  {
    LookupExact(input.subject.attributes, name, name);
    LookupExact(input.resource.attributes, name, name);
    hide Norm, Trim;
  }

  // Reserved names read the identity of subject and resource, never their attributes.

  lemma SameTenant(input: Input)
    ensures Holds(input, Predicate(SUBJECT, "tenant_id", EQUALS_ATTRIBUTE, "", [], RESOURCE, "tenant_id")) <==>
        Trim(input.subject.tenantId) == Trim(input.resource.tenantId) != ""
  {
    hide Holds, Trim;
    EqualsAttributeExact(input, "subject", "tenant_id", "resource", "tenant_id");
    SubjectFields(input, Trim(input.subject.tenantId));
    ResourceFields(input, Trim(input.subject.tenantId));
    if v :| Holds(input, Equality("subject", "tenant_id", v)) && Holds(input, Equality("resource", "tenant_id", v)) {
      SubjectFields(input, v);
      ResourceFields(input, v);
    }
  }

  lemma SameWorkspace(input: Input)
    ensures Holds(input, Predicate(SUBJECT, "workspace_id", EQUALS_ATTRIBUTE, "", [], RESOURCE, "workspace_id")) <==>
        Trim(input.subject.workspaceId) == Trim(input.resource.workspaceId) != ""
  {
    hide Holds, Trim;
    EqualsAttributeExact(input, "subject", "workspace_id", "resource", "workspace_id");
    SubjectFields(input, Trim(input.subject.workspaceId));
    ResourceFields(input, Trim(input.subject.workspaceId));
    if v :|
      Holds(input, Equality("subject", "workspace_id", v)) && Holds(input, Equality("resource", "workspace_id", v))
    {
      SubjectFields(input, v);
      ResourceFields(input, v);
    }
  }

  ghost predicate AllHold(input: Input, conditions: seq<Predicate>) {
    forall p :: p in conditions ==> Holds(input, p)
  }

  /** The conjunctive conditions of one clause or one relationship path. */
  method CheckAll(input: Input, conditions: seq<Predicate>) returns (matched: bool)
    ensures matched == AllHold(input, conditions)
  {
    for i := 0 to |conditions|
      invariant AllHold(input, conditions[..i])
    {
      if !Holds(input, conditions[i]) {
        return false;
      }
      assert conditions[..i + 1] == conditions[..i] + [conditions[i]];
    }
    assert conditions[..|conditions|] == conditions;
    return true;
  }

  function NoMatchOutcome(onNoMatch: string): Outcome {
    if onNoMatch == NO_OP then NoOpinion
    else if onNoMatch == ALLOW then Allow
    else Deny
  }

  /** Disjunctive normal form: some clause has every condition true. */
  ghost predicate SomeClauseHolds(input: Input, clauses: seq<Clause>) {
    exists c :: c in clauses && AllHold(input, c.allOf)
  }

  ghost function PolicyOutcome(input: Input, policy: AttributePolicy): Outcome {
    if policy.anyOf == [] || SomeClauseHolds(input, policy.anyOf) then Allow
    else NoMatchOutcome(policy.onNoMatch)
  }

  ghost function StageOutcome(policies: map<string, AttributePolicy>, input: Input): Outcome {
    var action := Norm(input.action);
    if action != "" && action in policies then PolicyOutcome(input, policies[action]) else NoOpinion
  }

  method Evaluate(policies: map<string, AttributePolicy>, input: Input) returns (outcome: Outcome, reason: string)
    ensures outcome == StageOutcome(policies, input)
  {
    if |policies| == 0 {
      return NoOpinion, "";
    }
    var action := Norm(input.action);
    if action == "" || action !in policies {
      return NoOpinion, "";
    }
    var policy := policies[action];
    if |policy.anyOf| == 0 {
      return Allow, "abac policy grants action";
    }
    for i := 0 to |policy.anyOf|
      invariant !SomeClauseHolds(input, policy.anyOf[..i])
    {
      var matched := CheckAll(input, policy.anyOf[i].allOf);
      if matched {
        return Allow, "abac policy grants action";
      }
      assert policy.anyOf[..i + 1] == policy.anyOf[..i] + [policy.anyOf[i]];
    }
    assert policy.anyOf[..|policy.anyOf|] == policy.anyOf;
    if policy.onNoMatch == NO_OP {
      return NoOpinion, "";
    } else if policy.onNoMatch == ALLOW {
      return Allow, "abac policy grants action";
    } else {
      return Deny, "abac conditions not satisfied";
    }
  }

  // ----- normalization -----

  function CleanOperator(operator: string): string {
    if Norm(operator) == "" then EQUALS else Norm(operator)
  }

  function CleanNoMatch(onNoMatch: string): string {
    if Norm(onNoMatch) == NO_OP || Norm(onNoMatch) == ALLOW then Norm(onNoMatch) else DENY
  }

  function CleanPredicate(p: Predicate): Predicate {
    Predicate(
      Norm(p.source), Norm(p.key), CleanOperator(p.operator), Trim(p.value),
      Dedupe(p.values), Norm(p.compareSource), Norm(p.compareKey))
  }

  function CleanConditions(conditions: seq<Predicate>): seq<Predicate> {
    seq(|conditions|, i requires 0 <= i < |conditions| => CleanPredicate(conditions[i]))
  }

  function CleanClauses(clauses: seq<Clause>): seq<Clause> {
    seq(|clauses|, i requires 0 <= i < |clauses| => Clause(CleanConditions(clauses[i].allOf)))
  }

  function CleanPolicy(policy: AttributePolicy): AttributePolicy {
    AttributePolicy(CleanClauses(policy.anyOf), CleanNoMatch(policy.onNoMatch))
  }

  function CleanEntry(policy: AttributePolicy): Option<AttributePolicy> {
    Some(CleanPolicy(policy))
  }

  method NormalizePredicate(p: Predicate) returns (clean: Predicate)
    ensures clean == CleanPredicate(p)
  {
    var values := DedupeStrings(p.values);
    clean := Predicate(
      Norm(p.source), Norm(p.key), Norm(p.operator), Trim(p.value),
      values, Norm(p.compareSource), Norm(p.compareKey));
    if clean.operator == "" {
      clean := clean.(operator := EQUALS);
    }
  }

  method NormalizeConditions(conditions: seq<Predicate>) returns (clean: seq<Predicate>)
    ensures clean == CleanConditions(conditions)
  {
    hide CleanPredicate;
    clean := [];
    for i := 0 to |conditions|
      invariant clean == CleanConditions(conditions[..i])
    {
      var p := NormalizePredicate(conditions[i]);
      clean := clean + [p];
    }
    assert conditions[..|conditions|] == conditions;
  }

  method NormalizePolicy(policy: AttributePolicy) returns (clean: AttributePolicy)
    ensures clean == CleanPolicy(policy)
  {
    var clauses := [];
    for i := 0 to |policy.anyOf|
      invariant clauses == CleanClauses(policy.anyOf)[..i]
    {
      var conditions := NormalizeConditions(policy.anyOf[i].allOf);
      clauses := clauses + [Clause(conditions)];
    }
    var onNoMatch := Norm(policy.onNoMatch);
    if onNoMatch != NO_OP && onNoMatch != ALLOW {
      onNoMatch := DENY;
    }
    clean := AttributePolicy(clauses, onNoMatch);
  }

  /** Ranges over the map in an arbitrary order, as Go does. */
  method NormalizePolicies(policies: map<string, AttributePolicy>) returns (clean: map<string, AttributePolicy>)
    ensures Rekeyed(policies, clean, CleanEntry)
  {
    hide Norm, CleanPolicy, RekeyedSoFar;
    clean := map[];
    var todo := policies.Keys;
    RekeyNone(policies, clean, CleanEntry);
    while todo != {}
      invariant todo <= policies.Keys
      invariant RekeyedSoFar(policies, policies.Keys - todo, clean, CleanEntry)
    {
      var k :| k in todo;
      assert policies.Keys - (todo - {k}) == policies.Keys - todo + {k};
      if Norm(k) != "" {
        var policy := NormalizePolicy(policies[k]);
        RekeyNext(policies, policies.Keys - todo, clean, CleanEntry, k, policy);
        clean := clean[Norm(k) := policy];
      } else {
        RekeySkip(policies, policies.Keys - todo, clean, CleanEntry, k);
      }
      todo := todo - {k};
    }
    assert policies.Keys - todo == policies.Keys;
  }

  // ----- validation -----

  /** What the compiler demands of one written condition. */
  predicate ValidPredicate(p: Predicate) {
    && KnownSource(Norm(p.source))
    && Trim(p.key) != ""
    && var operator := if Norm(p.operator) == "" then EQUALS else Norm(p.operator);
       if operator == EQUALS then Trim(p.value) != ""
       else if operator == ONE_OF then exists v :: v in p.values && Trim(v) != ""
       else operator == EQUALS_ATTRIBUTE && KnownSource(Norm(p.compareSource)) && Trim(p.compareKey) != ""
  }

  predicate ValidConditions(conditions: seq<Predicate>) {
    forall p :: p in conditions ==> ValidPredicate(p)
  }

  predicate ValidPolicy(policy: AttributePolicy) {
    && (forall c :: c in policy.anyOf ==> ValidConditions(c.allOf))
    && (var o := Norm(policy.onNoMatch); o == "" || o == NO_OP || o == ALLOW || o == DENY)
  }

  method ValidatePredicate(p: Predicate) returns (ok: bool)
    ensures ok == ValidPredicate(p)
  {
    if !KnownSource(Norm(p.source)) || Trim(p.key) == "" {
      return false;
    }
    var operator := Norm(p.operator);
    if operator == "" {
      operator := EQUALS;
    }
    if operator == EQUALS {
      return Trim(p.value) != "";
    } else if operator == ONE_OF {
      for i := 0 to |p.values|
        invariant forall j :: 0 <= j < i ==> Trim(p.values[j]) == ""
      {
        if Trim(p.values[i]) != "" {
          return true;
        }
      }
      return false;
    } else if operator == EQUALS_ATTRIBUTE {
      return KnownSource(Norm(p.compareSource)) && Trim(p.compareKey) != "";
    } else {
      return false;
    }
  }

  method ValidateConditions(conditions: seq<Predicate>) returns (ok: bool)
    ensures ok == ValidConditions(conditions)
  {
    hide ValidPredicate;
    for i := 0 to |conditions|
      invariant ValidConditions(conditions[..i])
    {
      var valid := ValidatePredicate(conditions[i]);
      if !valid {
        assert conditions[i] in conditions;
        return false;
      }
      assert conditions[..i + 1] == conditions[..i] + [conditions[i]];
    }
    assert conditions[..|conditions|] == conditions;
    return true;
  }

  method ValidatePolicy(policy: AttributePolicy) returns (ok: bool)
    ensures ok == ValidPolicy(policy)
  {
    for i := 0 to |policy.anyOf|
      invariant forall j :: 0 <= j < i ==> ValidConditions(policy.anyOf[j].allOf)
    {
      var valid := ValidateConditions(policy.anyOf[i].allOf);
      if !valid {
        return false;
      }
    }
    var o := Norm(policy.onNoMatch);
    return o == "" || o == NO_OP || o == ALLOW || o == DENY;
  }

  // ----- meaning -----

  /** What the author of a condition wrote, read directly from the document: the named
      attribute equals the value, one of the values, or the other attribute. */
  ghost predicate Means(input: Input, p: Predicate) {
    var left := Resolve(input, Norm(p.source), p.key);
    left.Some? &&
    match Norm(p.operator)
    case "equals_attribute" => Resolve(input, Norm(p.compareSource), p.compareKey) == left
    case "one_of" => exists v :: v in p.values && Trim(v) == left.value
    case operator => (operator == "" || operator == EQUALS) && left.value == Trim(p.value)
  }

  ghost predicate AllMean(input: Input, conditions: seq<Predicate>) {
    forall p :: p in conditions ==> Means(input, p)
  }

  ghost predicate SomeClauseMeans(input: Input, clauses: seq<Clause>) {
    exists c :: c in clauses && AllMean(input, c.allOf)
  }

  /** The written meaning of a policy. */
  ghost function WrittenOutcome(input: Input, policy: AttributePolicy): Outcome {
    if policy.anyOf == [] || SomeClauseMeans(input, policy.anyOf) then Allow
    else match Norm(policy.onNoMatch)
      case "no_op" => NoOpinion
      case "allow" => Allow
      case _ => Deny
  }

  lemma ResolveNorm(input: Input, source: string, key: string)
    ensures Resolve(input, source, Norm(key)) == Resolve(input, source, key)
    ensures var r := Resolve(input, source, key); r.Some? ==> r.value != "" && Trimmed(r.value)
  {
    hide Norm, Trim;
    NormIdempotent(key);
  }

  lemma CleanOperatorIdempotent(operator: string)
    ensures CleanOperator(CleanOperator(operator)) == CleanOperator(operator)
  {
    hide Norm;
    NormIdempotent(operator);
    LettersNormal(EQUALS);
  }

  lemma CleanNoMatchIdempotent(onNoMatch: string)
    ensures CleanNoMatch(CleanNoMatch(onNoMatch)) == CleanNoMatch(onNoMatch)
  {
    hide Norm;
    NormIdempotent(onNoMatch);
    LettersNormal(DENY);
  }

  lemma CleanPredicateIdempotent(p: Predicate)
    ensures CleanPredicate(CleanPredicate(p)) == CleanPredicate(p)
  {
    NormIdempotent(p.source);
    NormIdempotent(p.key);
    CleanOperatorIdempotent(p.operator);
    NormIdempotent(p.compareSource);
    NormIdempotent(p.compareKey);
    DedupeIdempotent(Dedupe(p.values));
  }

  /** A second normalization, the one in the evaluator's constructor, does nothing. */
  lemma CleanPolicyIdempotent(policy: AttributePolicy)
    ensures CleanPolicy(CleanPolicy(policy)) == CleanPolicy(policy)
  {
    var once := CleanPolicy(policy);
    forall i | 0 <= i < |once.anyOf|
      ensures CleanPolicy(once).anyOf[i] == once.anyOf[i]
    {
      CleanConditionsIdempotent(policy.anyOf[i].allOf);
    }
    CleanNoMatchIdempotent(policy.onNoMatch);
  }

  lemma CleanConditionsIdempotent(conditions: seq<Predicate>)
    ensures CleanConditions(CleanConditions(conditions)) == CleanConditions(conditions)
  {
    forall i | 0 <= i < |conditions| {
      CleanPredicateIdempotent(conditions[i]);
    }
  }

  /** The evaluator, run on the normalized condition, decides what was written. */
  lemma CleanPredicateMeaning(input: Input, p: Predicate)
    ensures Holds(input, CleanPredicate(p)) == Means(input, p)
  {
    hide Norm, Trim, Resolve;
    ResolveNorm(input, Norm(p.source), p.key);
    ResolveNorm(input, Norm(p.compareSource), p.compareKey);
    var left := Resolve(input, Norm(p.source), p.key);
    if left.Some? {
      assert left.value in Dedupe(p.values) <==> exists v :: v in p.values && Trim(v) == left.value;
    }
  }

  lemma CleanConditionsMeaning(input: Input, conditions: seq<Predicate>)
    ensures AllHold(input, CleanConditions(conditions)) == AllMean(input, conditions)
  {
    var clean := CleanConditions(conditions);
    forall i | 0 <= i < |conditions|
      ensures Holds(input, clean[i]) == Means(input, conditions[i])
    {
      CleanPredicateMeaning(input, conditions[i]);
    }
    forall p | p in conditions && AllHold(input, clean)
      ensures Means(input, p)
    {
      var i :| 0 <= i < |conditions| && conditions[i] == p;
      assert clean[i] in clean;
    }
    forall q | q in clean && AllMean(input, conditions)
      ensures Holds(input, q)
    {
      var i :| 0 <= i < |clean| && clean[i] == q;
      assert conditions[i] in conditions;
    }
  }

  lemma CleanClausesMeaning(input: Input, clauses: seq<Clause>)
    ensures SomeClauseHolds(input, CleanClauses(clauses)) == SomeClauseMeans(input, clauses)
  {
    var clean := CleanClauses(clauses);
    if SomeClauseHolds(input, clean) {
      var c :| c in clean && AllHold(input, c.allOf);
      var i :| 0 <= i < |clean| && clean[i] == c;
      CleanConditionsMeaning(input, clauses[i].allOf);
      assert clauses[i] in clauses;
    }
    if SomeClauseMeans(input, clauses) {
      var c :| c in clauses && AllMean(input, c.allOf);
      var i :| 0 <= i < |clauses| && clauses[i] == c;
      CleanConditionsMeaning(input, clauses[i].allOf);
      assert clean[i] in clean;
    }
  }

  /** Main result: one normalization, hence any number, preserves the written meaning. */
  lemma CleanPolicyMeaning(input: Input, policy: AttributePolicy)
    ensures PolicyOutcome(input, CleanPolicy(policy)) == WrittenOutcome(input, policy)
    ensures PolicyOutcome(input, CleanPolicy(CleanPolicy(policy))) == WrittenOutcome(input, policy)
  {
    CleanPolicyIdempotent(policy);
    CleanClausesMeaning(input, policy.anyOf);
  }

  /** On validated policies the evaluator's "unsupported operator" and "unknown source"
      branches are dead: a condition fails only for a missing or different attribute. */
  lemma ValidPredicateReachesNoFallback(p: Predicate)
    requires ValidPredicate(p)
    ensures var c := CleanPredicate(p);
            && KnownSource(c.source) && KnownOperator(c.operator) && c.key != ""
            && (c.operator == EQUALS ==> c.value != "")
            && (c.operator == ONE_OF ==> c.values != [])
            && (c.operator == EQUALS_ATTRIBUTE ==> KnownSource(c.compareSource) && c.compareKey != "")
  {
    NormBlank(p.key);
    NormBlank(p.compareKey);
    if CleanPredicate(p).operator == ONE_OF {
      var v :| v in p.values && Trim(v) != "";
      var i :| 0 <= i < |p.values| && p.values[i] == v;
      assert Trim(p.values[i]) in Dedupe(p.values);
    }
  }

  // ----- what validation accepts -----

  /** A request all of whose fields, and the two named attributes of each source, have one
      value. */
  function Uniform(key: string, compareKey: string, v: string): Input
    requires Normal(key) && Normal(compareKey)
  {
    NormalFacts(key);
    NormalFacts(compareKey);
    var attributes := map[key := v, compareKey := v];
    Input(
      Subject(v, v, v, v, [], attributes), "", Resource(v, v, v, v, attributes), Context(v, v, attributes))
  }

  lemma UniformReads(key: string, compareKey: string, v: string, source: string, name: string)
    requires Normal(key) && Normal(compareKey) && Trim(v) == v != "" && KnownSource(source)
    requires Norm(name) != "" && Norm(name) in {key, compareKey}
    ensures Resolve(Uniform(key, compareKey, v), source, name) == Some(v)
  {
    hide Norm, Trim, Normal;
  }

  /** The value a condition asks for, if it asks for one. */
  ghost predicate Asks(p: Predicate, v: string) {
    match Norm(p.operator)
    case "equals_attribute" => v == "x"
    case "one_of" => exists w :: w in p.values && Trim(w) == v
    case _ => v == Trim(p.value)
  }

  lemma ValidAsks(p: Predicate) returns (v: string)
    requires ValidPredicate(p)
    ensures Asks(p, v) && Trim(v) == v != ""
  {
    hide Norm, Trim, KnownSource;
    if Norm(p.operator) == "one_of" {
      var w :| w in p.values && Trim(w) != "";
      v := Trim(w);
    } else {
      v := if Norm(p.operator) == "equals_attribute" then "x" else Trim(p.value);
    }
    TrimmedValue(p, v);
  }

  lemma TrimmedValue(p: Predicate, v: string)
    requires Asks(p, v)
    ensures Trim(v) == v
  {
    hide Norm;
    assert Trim("x") == "x";
    if w :| w in p.values && Trim(w) == v {
      assert Trimmed(Trim(w));
    }
  }

  /** Main result: the compiler accepts exactly the conditions that some request can meet. */
  lemma ValidExactly(p: Predicate)
    ensures ValidPredicate(p) <==> exists input :: Means(input, p)
  {
    hide Norm, Trim;
    if ValidPredicate(p) {
      var v := ValidAsks(p);
      var key, compareKey := Norm(p.key), Norm(p.compareKey);
      NormIdempotent(p.key);
      NormIdempotent(p.compareKey);
      NormBlank(p.key);
      NormBlank(p.compareKey);
      var input := Uniform(key, compareKey, v);
      UniformReads(key, compareKey, v, Norm(p.source), p.key);
      if Norm(p.operator) == "equals_attribute" {
        UniformReads(key, compareKey, v, Norm(p.compareSource), p.compareKey);
      }
      hide Resolve, Uniform, ValidPredicate;
      assert Means(input, p);
    }
    if input :| Means(input, p) {
      MeansValid(input, p);
    }
  }

  lemma MeansValid(input: Input, p: Predicate)
    requires Means(input, p)
    ensures ValidPredicate(p)
  {
    ResolveNorm(input, Norm(p.source), p.key);
    ResolveNorm(input, Norm(p.compareSource), p.compareKey);
    NormBlank(p.key);
    NormBlank(p.compareKey);
    hide Norm, Trim, Lookup;
  }

  /** So it accepts exactly the policies whose every condition can be met and whose outcome
      without a match is left open or a known one. */
  lemma ValidPolicyExactly(policy: AttributePolicy)
    ensures ValidPolicy(policy) <==>
        && (forall c, p :: c in policy.anyOf && p in c.allOf ==> exists input :: Means(input, p))
        && Norm(policy.onNoMatch) in ["", "no_op", "allow", "deny"]
  {
    hide Norm, Means, ValidPredicate;
    forall p
      ensures ValidPredicate(p) <==> exists input :: Means(input, p)
    {
      ValidExactly(p);
    }
  }
}
