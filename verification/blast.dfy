/** Blast-radius paths of agent findings: a tree of roles, one agent and its targets is
    flattened into a list of steps, and relationships are read off adjacent steps. */
module Blast {
  import opened Text
  import opened Lists

  const IDENTITY := "identity"
  const AGENT := "ai_agent"
  const TARGET := "target_resource"

  const AGENT_PATH := "agent-tool-path"
  const CAVEATED_PATH := "agent-tool-path-with-caveats"
  const UNDECLARED_PATH := "undeclared-agent-tool-path"
  const UNUSED_PATH := "unused-agent-tool-path"

  /** Labels, accounts and regions play no part in the relationships. */
  datatype Step = Step(node: string, kind: string)

  datatype Finding = Finding(id: string, riskType: string, path: seq<Step>, evidenceRef: string)

  datatype Relationship = Relationship(findingId: string, source: string, target: string, evidenceRef: string)

  // ----- flattening -----

  /** Alternating agent and target steps. */
  function Hops(agent: string, targets: seq<string>): seq<Step> {
    if targets == [] then []
    else Hops(agent, targets[..|targets| - 1]) + [Step(agent, AGENT), Step(targets[|targets| - 1], TARGET)]
  }

  function Branch(role: string, agent: string, targets: seq<string>): seq<Step> {
    [Step(role, IDENTITY)] + if targets == [] then [Step(agent, AGENT)] else Hops(agent, targets)
  }

  function Flattened(roles: seq<string>, agent: string, targets: seq<string>): seq<Step> {
    if roles == [] then []
    else Flattened(roles[..|roles| - 1], agent, targets) + Branch(roles[|roles| - 1], agent, targets)
  }

  /** The target steps of a finding: its resource nodes and ARNs without repeats. */
  method TargetNodes(nodeIds: seq<string>, arns: seq<string>) returns (targets: seq<string>)
    ensures targets == Dedupe(nodeIds + arns)
  {
    targets := DedupeStrings(nodeIds + arns);
  }

  method FlattenPath(roles: seq<string>, agent: string, targets: seq<string>) returns (path: seq<Step>)
    ensures path == Flattened(roles, agent, targets)
  {
    path := [];
    for i := 0 to |roles|
      invariant path == Flattened(roles[..i], agent, targets)
    {
      assert roles[..i + 1][..i] == roles[..i];
      var before := path;
      path := path + [Step(roles[i], IDENTITY)];
      if |targets| == 0 {
        path := path + [Step(agent, AGENT)];
        assert path == before + Branch(roles[i], agent, targets);
      } else {
        for j := 0 to |targets|
          invariant path == before + ([Step(roles[i], IDENTITY)] + Hops(agent, targets[..j]))
        {
          assert targets[..j + 1][..j] == targets[..j];
          path := path + [Step(agent, AGENT), Step(targets[j], TARGET)];
        }
        assert targets[..|targets|] == targets;
      }
    }
    assert roles[..|roles|] == roles;
  }

  // ----- relationships -----

  function Dashed(s: string): string {
    seq(|s|, i requires 0 <= i < |s| => if s[i] == ' ' || s[i] == '_' then '-' else s[i])
  }

  function Token(s: string): string {
    Lower(Dashed(Trim(s)))
  }

  predicate AgentPath(riskType: string) {
    riskType == AGENT_PATH || riskType == CAVEATED_PATH || riskType == UNDECLARED_PATH || riskType == UNUSED_PATH
  }

  predicate AgentFinding(riskType: string) {
    AgentPath(Token(riskType))
  }

  predicate AllowsTransition(riskType: string, source: string, target: string) {
    AgentFinding(riskType) ==>
      (source == IDENTITY && target == AGENT) || (source == AGENT && target == TARGET)
  }

  /** The relationship between two adjacent steps, if any. */
  function Edge(f: Finding, source: Step, target: Step): seq<Relationship> {
    var from, to := Trim(source.node), Trim(target.node);
    if from == "" || to == "" || !AllowsTransition(f.riskType, Trim(source.kind), Trim(target.kind)) then []
    else [Relationship(f.id, from, to, f.evidenceRef)]
  }

  function Edges(f: Finding, path: seq<Step>): seq<Relationship> {
    if |path| < 2 then []
    else Edges(f, path[..|path| - 1]) + Edge(f, path[|path| - 2], path[|path| - 1])
  }

  function AllEdges(findings: seq<Finding>): seq<Relationship> {
    if findings == [] then []
    else
      var last := findings[|findings| - 1];
      AllEdges(findings[..|findings| - 1]) + Edges(last, last.path)
  }

  /** The name is written with these letters in any case, and blanks or underscores for
      dashes. */
  ghost predicate Spelled(s: string, name: string) {
    |Trim(s)| == |name| && forall i :: 0 <= i < |name| ==> Alike(Trim(s)[i], name[i])
  }

  predicate Alike(c: char, d: char) {
    if d == '-' then c in [' ', '_', '-'] else LowerChar(c) == d
  }

  predicate IsToken(name: string) {
    forall i :: 0 <= i < |name| ==> 'a' <= name[i] <= 'z' || name[i] == '-'
  }

  lemma TokenExact(s: string, name: string)
    requires IsToken(name)
    ensures Token(s) == name <==> Spelled(s, name)
  {
    hide Trim;
    var t := Trim(s);
    assert |Token(s)| == |t|;
    if |t| == |name| {
      forall i | 0 <= i < |t|
        ensures Token(s)[i] == name[i] <==> Alike(t[i], name[i])
      {
      }
    }
  }

  /** The relationship names both steps; on agent paths these are a role and the agent, or the
      agent and a target. */
  ghost predicate Joins(f: Finding, source: Step, target: Step, r: Relationship) {
    && r.findingId == f.id && r.evidenceRef == f.evidenceRef
    && r.source == Trim(source.node) != "" && r.target == Trim(target.node) != ""
    && (AgentFinding(f.riskType) ==>
          || (Trim(source.kind) == "identity" && Trim(target.kind) == "ai_agent")
          || (Trim(source.kind) == "ai_agent" && Trim(target.kind) == "target_resource"))
  }

  lemma EdgeExact(f: Finding, source: Step, target: Step, r: Relationship)
    ensures r in Edge(f, source, target) <==> Joins(f, source, target, r)
  {
    hide Trim, AgentFinding;
  }

  /** Main result, field by field: exactly which relationships a path yields, one for each two
      adjacent steps that `Joins` accepts. */
  lemma {:induction false} EdgesExact(f: Finding, path: seq<Step>, r: Relationship)
    ensures r in Edges(f, path) <==> exists i :: 0 <= i < |path| - 1 && Joins(f, path[i], path[i + 1], r)
  {
    hide Joins, Edge;
    if |path| >= 2 {
      var front, last := path[..|path| - 1], |path| - 1;
      EdgesExact(f, front, r);
      EdgeExact(f, path[last - 1], path[last], r);
      assert Edges(f, path) == Edges(f, front) + Edge(f, path[last - 1], path[last]);
      if i :| 0 <= i < |path| - 1 && Joins(f, path[i], path[i + 1], r) {
        if i < last - 1 {
          assert Joins(f, front[i], front[i + 1], r);
        }
      }
      if i :| 0 <= i < |front| - 1 && Joins(f, front[i], front[i + 1], r) {
        assert Joins(f, path[i], path[i + 1], r);
      }
    }
  }

  /** Which findings are about agents. */
  lemma AgentFindingExact(riskType: string)
    ensures AgentFinding(riskType) <==>
        || Spelled(riskType, "agent-tool-path") || Spelled(riskType, "agent-tool-path-with-caveats")
        || Spelled(riskType, "undeclared-agent-tool-path") || Spelled(riskType, "unused-agent-tool-path")
  {
    hide Token, Spelled;
    TokenExact(riskType, AGENT_PATH);
    TokenExact(riskType, CAVEATED_PATH);
    TokenExact(riskType, UNDECLARED_PATH);
    TokenExact(riskType, UNUSED_PATH);
  }

  method PathRelationships(finding: Finding) returns (relationships: seq<Relationship>)
    ensures relationships == Edges(finding, finding.path)
  {
    hide AllowsTransition, Trim;
    relationships := [];
    var i := 0;
    while i + 1 < |finding.path|
      invariant 0 <= i <= |finding.path|
      invariant finding.path != [] ==> i < |finding.path| && relationships == Edges(finding, finding.path[..i + 1])
      invariant finding.path == [] ==> relationships == []
    {
      var source, target := finding.path[i], finding.path[i + 1];
      assert finding.path[..i + 2][..i + 1] == finding.path[..i + 1];
      var from, to := Trim(source.node), Trim(target.node);
      if from != "" && to != "" && AllowsTransition(finding.riskType, Trim(source.kind), Trim(target.kind)) {
        relationships := relationships + [Relationship(finding.id, from, to, finding.evidenceRef)];
      }
      i := i + 1;
    }
    assert finding.path != [] ==> finding.path[..i + 1] == finding.path;
  }

  method Relationships(findings: seq<Finding>) returns (relationships: seq<Relationship>)
    ensures relationships == AllEdges(findings)
  {
    relationships := [];
    for i := 0 to |findings|
      invariant relationships == AllEdges(findings[..i])
    {
      assert findings[..i + 1][..i] == findings[..i];
      var found := PathRelationships(findings[i]);
      relationships := relationships + found;
    }
    assert findings[..|findings|] == findings;
  }

  // ----- the tree -----

  /** One relationship when both ends are named. */
  function Link(f: Finding, from: string, to: string): seq<Relationship> {
    if Trim(from) == "" || Trim(to) == "" then [] else [Relationship(f.id, Trim(from), Trim(to), f.evidenceRef)]
  }

  function TargetLinks(f: Finding, agent: string, targets: seq<string>): seq<Relationship> {
    if targets == [] then []
    else TargetLinks(f, agent, targets[..|targets| - 1]) + Link(f, agent, targets[|targets| - 1])
  }

  /** The edges of the tree: per role, the role to the agent and the agent to each target. */
  function Tree(f: Finding, roles: seq<string>, agent: string, targets: seq<string>): seq<Relationship> {
    if roles == [] then []
    else
      Tree(f, roles[..|roles| - 1], agent, targets)
      + (Link(f, roles[|roles| - 1], agent) + TargetLinks(f, agent, targets))
  }

  lemma {:induction false} EdgesAppend(f: Finding, p: seq<Step>, q: seq<Step>)
    requires p != [] && q != []
    ensures Edges(f, p + q) == Edges(f, p) + (Edge(f, p[|p| - 1], q[0]) + Edges(f, q))
  {
    hide Edge;
    var n := |p + q|;
    if |q| == 1 {
      assert (p + q)[..n - 1] == p;
    } else {
      assert (p + q)[..n - 1] == p + q[..|q| - 1];
      EdgesAppend(f, p, q[..|q| - 1]);
    }
  }

  /** Which transitions of an agent path survive. */
  lemma AgentEdges(f: Finding, role: string, agent: string, target: string)
    requires AgentFinding(f.riskType)
    ensures Edge(f, Step(role, IDENTITY), Step(agent, AGENT)) == Link(f, role, agent)
    ensures Edge(f, Step(agent, AGENT), Step(target, TARGET)) == Link(f, agent, target)
    ensures Edge(f, Step(target, TARGET), Step(agent, AGENT)) == []
    ensures Edge(f, Step(agent, AGENT), Step(role, IDENTITY)) == []
    ensures Edge(f, Step(target, TARGET), Step(role, IDENTITY)) == []
  {
    hide AgentFinding;
    assert Trimmed(IDENTITY) && Trimmed(AGENT) && Trimmed(TARGET);
    hide Trim;
    assert IDENTITY[0] != AGENT[0] && IDENTITY[0] != TARGET[0] && AGENT[0] != TARGET[0];
  }

  function LastOf(agent: string, targets: seq<string>): Step {
    if targets == [] then Step(agent, AGENT) else Step(targets[|targets| - 1], TARGET)
  }

  lemma BranchEnds(role: string, agent: string, targets: seq<string>)
    ensures var b := Branch(role, agent, targets);
        |b| >= 2 && b[0] == Step(role, IDENTITY) && b[|b| - 1] == LastOf(agent, targets)
  {
  }

  lemma {:induction false} BranchEdges(f: Finding, role: string, agent: string, targets: seq<string>)
    requires AgentFinding(f.riskType)
    ensures Edges(f, Branch(role, agent, targets)) == Link(f, role, agent) + TargetLinks(f, agent, targets)
  {
    hide AgentFinding, Link, Edge, Edges;
    if |targets| <= 1 {
      ShortBranch(f, role, agent, targets);
    } else {
      var front, last := targets[..|targets| - 1], targets[|targets| - 1];
      var hop := [Step(agent, AGENT), Step(last, TARGET)];
      assert Branch(role, agent, targets) == Branch(role, agent, front) + hop;
      BranchEdges(f, role, agent, front);
      BranchEnds(role, agent, front);
      HopEdges(f, Branch(role, agent, front), front[|front| - 1], agent, last);
    }
  }

  lemma ShortBranch(f: Finding, role: string, agent: string, targets: seq<string>)
    requires AgentFinding(f.riskType) && |targets| <= 1
    ensures Edges(f, Branch(role, agent, targets)) == Link(f, role, agent) + TargetLinks(f, agent, targets)
  {
    hide AgentFinding, Link, Edge, Edges;
    var root, hub := Step(role, IDENTITY), Step(agent, AGENT);
    if targets == [] {
      AgentEdges(f, role, agent, "");
      PairEdges(f, root, hub);
      assert Branch(role, agent, targets) == [root, hub];
    } else {
      assert targets == [targets[0]];
      var hop := [hub, Step(targets[0], TARGET)];
      AgentEdges(f, role, agent, targets[0]);
      PairEdges(f, hub, Step(targets[0], TARGET));
      assert Hops(agent, targets[..0]) == [] && TargetLinks(f, agent, targets[..0]) == [];
      assert Branch(role, agent, targets) == [root] + hop;
      EdgesAppend(f, [root], hop);
      LoneStep(f, root);
    }
  }

  lemma LoneStep(f: Finding, a: Step)
    ensures Edges(f, [a]) == []
  {
  }

  /** Another hop after a target adds only the agent's link to the new target. */
  lemma HopEdges(f: Finding, p: seq<Step>, previous: string, agent: string, target: string)
    requires AgentFinding(f.riskType) && p != [] && p[|p| - 1] == Step(previous, TARGET)
    ensures Edges(f, p + [Step(agent, AGENT), Step(target, TARGET)]) == Edges(f, p) + Link(f, agent, target)
  {
    hide AgentFinding, Link, Edge, Edges;
    var hop := [Step(agent, AGENT), Step(target, TARGET)];
    AgentEdges(f, "", agent, previous);
    AgentEdges(f, "", agent, target);
    PairEdges(f, hop[0], hop[1]);
    EdgesAppend(f, p, hop);
  }

  lemma PairEdges(f: Finding, a: Step, b: Step)
    ensures Edges(f, [a, b]) == Edge(f, a, b)
  {
    assert [a, b][..1] == [a];
  }

  /** Main result: the relationships read off the flattened path of an agent finding are
      exactly the edges of the tree, in order. No edge leads from a target back to the agent
      or from one role's branch into the next. */
  lemma {:induction false} PathRecoversTree(f: Finding, roles: seq<string>, agent: string, targets: seq<string>)
    requires AgentFinding(f.riskType)
    ensures Edges(f, Flattened(roles, agent, targets)) == Tree(f, roles, agent, targets)
  {
    hide AgentFinding, Link, Edge, Branch;
    if roles != [] {
      var front, last := roles[..|roles| - 1], roles[|roles| - 1];
      PathRecoversTree(f, front, agent, targets);
      BranchEdges(f, last, agent, targets);
      if front == [] {
        assert Flattened(front, agent, targets) == [];
        assert Flattened(roles, agent, targets) == Branch(last, agent, targets);
      } else {
        FlattenedEnd(front, agent, targets);
        BranchEnds(last, agent, targets);
        AgentEdges(f, last, agent, if targets == [] then "" else targets[|targets| - 1]);
        EdgesAppend(f, Flattened(front, agent, targets), Branch(last, agent, targets));
      }
    }
  }

  lemma FlattenedEnd(roles: seq<string>, agent: string, targets: seq<string>)
    requires roles != []
    ensures var p := Flattened(roles, agent, targets);
        p != [] && p[|p| - 1] == LastOf(agent, targets)
  {
    BranchEnds(roles[|roles| - 1], agent, targets);
  }

  predicate Named(nodes: seq<string>) {
    forall i :: 0 <= i < |nodes| ==> Trim(nodes[i]) != ""
  }

  lemma {:induction false} TargetLinkCount(f: Finding, agent: string, targets: seq<string>)
    requires Trim(agent) != "" && Named(targets)
    ensures |TargetLinks(f, agent, targets)| == |targets|
  {
    hide Trim;
    if targets != [] {
      TargetLinkCount(f, agent, targets[..|targets| - 1]);
    }
  }

  lemma Times(m: nat, n: nat)
    requires m > 0
    ensures m * n == (m - 1) * n + n
  {
  }

  /** With all nodes named: one relationship per role and one per role and target. */
  lemma {:induction false} TreeSize(f: Finding, roles: seq<string>, agent: string, targets: seq<string>)
    requires Trim(agent) != "" && Named(roles) && Named(targets)
    ensures |Tree(f, roles, agent, targets)| == |roles| + |roles| * |targets|
  {
    hide Trim, TargetLinks;
    if roles != [] {
      TreeSize(f, roles[..|roles| - 1], agent, targets);
      TargetLinkCount(f, agent, targets);
      Times(|roles|, |targets|);
    }
  }

  // ----- findings from agent access records -----

  /** What a runtime access record says about an agent. */
  datatype Record = Record(
    correlationId: string, agent: string, backingRoles: seq<string>, declaredRole: string,
    targetNodes: seq<string>, targetArns: seq<string>, status: string, caveats: nat, evidenceRef: string)

  function RoleNodes(r: Record): seq<string> {
    var declared := Dedupe(r.backingRoles + [r.declaredRole]);
    if declared == [] then Dedupe([r.agent]) else declared
  }

  /** The roles of a record as written: those it names, backing or declared; a record that names
      none stands for itself. */
  lemma RoleNodesExact(r: Record, v: string)
    ensures v in RoleNodes(r) <==>
        && v != ""
        && if Trim(r.declaredRole) == "" && (forall b :: b in r.backingRoles ==> Trim(b) == "") then Trim(r.agent) == v
           else Trim(r.declaredRole) == v || exists b :: b in r.backingRoles && Trim(b) == v
  {
    hide Trim, Dedupe;
    var named := r.backingRoles + [r.declaredRole];
    assert named[|r.backingRoles|] == r.declaredRole;
    DedupeHas(named, v);
    DedupeHas([r.agent], v);
    if Dedupe(named) != [] {
      DedupeHas(named, Dedupe(named)[0]);
      assert Dedupe(named)[0] in Dedupe(named);
    } else {
      forall b | b in named
        ensures Trim(b) == ""
      {
        DedupeHas(named, Trim(b));
      }
    }
  }

  function RiskTypeOf(r: Record): string {
    var status := Token(r.status);
    if status == "observed-without-declaration" then UNDECLARED_PATH
    else if status == "declared-unused" then UNUSED_PATH
    else if status == "confirmed" && r.caveats > 0 then CAVEATED_PATH
    else AGENT_PATH
  }

  /** The risk type of a record, from its status as written. */
  lemma RiskTypeExact(r: Record)
    ensures RiskTypeOf(r) ==
        if Spelled(r.status, "observed-without-declaration") then "undeclared-agent-tool-path"
        else if Spelled(r.status, "declared-unused") then "unused-agent-tool-path"
        else if Spelled(r.status, "confirmed") && r.caveats > 0 then "agent-tool-path-with-caveats"
        else "agent-tool-path"
  {
    TokenExact(r.status, "observed-without-declaration");
    TokenExact(r.status, "declared-unused");
    TokenExact(r.status, "confirmed");
    hide Token, Spelled;
  }

  method FindingOf(r: Record) returns (f: Finding)
    ensures f == Finding(
      "aws-blast-radius:" + r.correlationId, RiskTypeOf(r),
      Flattened(RoleNodes(r), r.agent, Dedupe(r.targetNodes + r.targetArns)), r.evidenceRef)
  {
    hide Trim, Flattened;
    var roles := DedupeStrings(r.backingRoles + [r.declaredRole]);
    if |roles| == 0 {
      roles := DedupeStrings([r.agent]);
    }
    var targets := TargetNodes(r.targetNodes, r.targetArns);
    var path := FlattenPath(roles, r.agent, targets);
    f := Finding("aws-blast-radius:" + r.correlationId, RiskTypeOf(r), path, r.evidenceRef);
  }

  lemma RiskTypesAreAgentPaths(r: Record)
    ensures AgentFinding(RiskTypeOf(r))
  {
    hide Token;
    assert AgentPath(RiskTypeOf(r));
    AgentPathsClean(RiskTypeOf(r));
  }

  lemma AgentPathsClean(riskType: string)
    requires AgentPath(riskType)
    ensures AgentFinding(riskType)
  {
    hide Token;
    TokenKept(riskType);
  }

  lemma TokenKept(s: string)
    requires forall i :: 0 <= i < |s| ==> 'a' <= s[i] <= 'z' || s[i] == '-'
    ensures Token(s) == s
  {
    assert Trim(s) == s;
    assert Dashed(s) == s;
  }

  lemma DedupedNamed(values: seq<string>)
    ensures Named(Dedupe(values))
  {
    forall i | 0 <= i < |Dedupe(values)|
      ensures Trim(Dedupe(values)[i]) != ""
    {
      assert Dedupe(values)[i] in Dedupe(values);
      var j :| 0 <= j < |values| && Trim(values[j]) == Dedupe(values)[i];
    }
  }

  /** Main result: every access record of a named agent yields a finding whose relationships
      are exactly its tree, and none is lost. */
  lemma RecordRelationships(r: Record, f: Finding)
    requires Trim(r.agent) != "" && f.riskType == RiskTypeOf(r)
    requires f.path == Flattened(RoleNodes(r), r.agent, Dedupe(r.targetNodes + r.targetArns))
    ensures var roles, targets := RoleNodes(r), Dedupe(r.targetNodes + r.targetArns);
        && Edges(f, f.path) == Tree(f, roles, r.agent, targets)
        && |Edges(f, f.path)| == |roles| + |roles| * |targets|
        && roles != []
  {
    hide AgentFinding, Edges, Tree, Flattened, Named;
    var roles, targets := RoleNodes(r), Dedupe(r.targetNodes + r.targetArns);
    RiskTypesAreAgentPaths(r);
    PathRecoversTree(f, roles, r.agent, targets);
    DedupedNamed(r.backingRoles + [r.declaredRole]);
    DedupedNamed([r.agent]);
    DedupedNamed(r.targetNodes + r.targetArns);
    TreeSize(f, roles, r.agent, targets);
    assert Trim([r.agent][0]) in Dedupe([r.agent]);
  }
}
