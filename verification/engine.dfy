/** The four-stage decision engine and its trace. */
module Engine {
  import opened Text
  import opened Lists
  import opened Policy
  import Rbac
  import Abac
  import Walk
  import Rebac

  datatype Stage = TenantIsolation | RoleGrants | AttributeConditions | Relationships | DefaultDeny

  datatype Decision = Decision(allowed: bool, stage: Stage, reason: string)

  datatype TraceStep = TraceStep(stage: Stage, outcome: Outcome, reason: string)

  /** The evaluators the code installs, and any other one. */
  datatype Evaluator =
    | Isolation
    | RoleGate(actionRoles: map<string, set<string>>)
    | AttributeRules(attributes: map<string, AttributePolicy>)
    | RelationRules(store: Option<Walk.Store>, relations: map<string, RelationPolicy>, limit: int)
    | Custom(evaluate: Input -> Evaluation)

  /** One optional evaluator for each of the first four stages. */
  datatype Engine = Engine(
    isolation: Option<Evaluator>, roleGrants: Option<Evaluator>,
    attributeConditions: Option<Evaluator>, relationships: Option<Evaluator>)

  const STAGES := [TenantIsolation, RoleGrants, AttributeConditions, Relationships, DefaultDeny]

  function EvaluatorAt(engine: Engine, index: nat): Option<Evaluator> {
    if index == 0 then engine.isolation
    else if index == 1 then engine.roleGrants
    else if index == 2 then engine.attributeConditions
    else if index == 3 then engine.relationships
    else None
  }

  function IndexOf(stage: Stage): (i: nat)
    ensures i < 5 && STAGES[i] == stage
  {
    match stage
    case TenantIsolation => 0
    case RoleGrants => 1
    case AttributeConditions => 2
    case Relationships => 3
    case DefaultDeny => 4
  }

  /** What an evaluator can return. */
  ghost predicate MayReturn(e: Evaluator, input: Input, r: Evaluation) {
    match e
    case Isolation => r.Evaluated? && r.outcome == Rbac.IsolationOutcome(input)
    case RoleGate(actionRoles) => r.Evaluated? && r.outcome == Rbac.GateOutcome(actionRoles, input)
    case AttributeRules(policies) => r.Evaluated? && r.outcome == Abac.StageOutcome(policies, input)
    case RelationRules(store, policies, limit) => Rebac.StageMay(store, limit, policies, input, r)
    case Custom(evaluate) => r == evaluate(input)
  }

  method EvaluateStage(e: Evaluator, input: Input) returns (r: Evaluation)
    ensures MayReturn(e, input, r)
  {
    match e
    case Isolation =>
      r := Evaluated(Rbac.IsolationOutcome(input), if Rbac.ScopesConflict(input) then "scope mismatch" else "");
    case RoleGate(actionRoles) =>
      var outcome, reason := Rbac.EvaluateGate(actionRoles, input);
      r := Evaluated(outcome, reason);
    case AttributeRules(policies) =>
      var outcome, reason := Abac.Evaluate(policies, input);
      r := Evaluated(outcome, reason);
    case RelationRules(store, policies, limit) =>
      r := Rebac.Evaluate(store, limit, policies, input);
    case Custom(evaluate) =>
      r := evaluate(input);
  }

  /** Stage `index` of the engine can come out with `outcome`; a stage without an
      evaluator has no opinion. */
  ghost predicate StageSays(engine: Engine, index: nat, input: Input, outcome: Outcome) {
    match EvaluatorAt(engine, index)
    case None => outcome == NoOpinion
    case Some(e) => exists reason :: MayReturn(e, input, Evaluated(outcome, reason))
  }

  ghost predicate StageFails(engine: Engine, index: nat, input: Input) {
    match EvaluatorAt(engine, index)
    case None => false
    case Some(e) =>
      || MayReturn(e, input, Failed)
      || exists outcome, reason ::
           MayReturn(e, input, Evaluated(outcome, reason)) && outcome !in {NoOpinion, Allow, Deny}
  }

  ghost predicate SilentBefore(engine: Engine, index: nat, input: Input) {
    forall i: nat :: i < index ==> StageSays(engine, i, input, NoOpinion)
  }

  /** Strict order: the first stage with an opinion decides, and silence denies. */
  ghost predicate MayDecide(engine: Engine, input: Input, allowed: bool, stage: Stage) {
    && SilentBefore(engine, IndexOf(stage), input)
    && if stage == DefaultDeny then !allowed
       else StageSays(engine, IndexOf(stage), input, if allowed then Allow else Deny)
  }

  /** The shape of a complete trace for a decision. */
  ghost predicate TraceShape(configured: bool, d: Decision, trace: seq<TraceStep>) {
    && |trace| == 5
    && (d.allowed ==> d.stage != DefaultDeny)
    && (!configured ==> d.stage == DefaultDeny)
    && (forall i :: 0 <= i < 5 ==> trace[i].stage == STAGES[i] && Trim(trace[i].reason) != "")
    && (forall i :: 0 <= i < IndexOf(d.stage) ==> trace[i].outcome == if configured then NoOpinion else Skipped)
    && trace[IndexOf(d.stage)].outcome == (if d.allowed then Allow else Deny)
    && trace[IndexOf(d.stage)].reason == d.reason
    && (forall i :: IndexOf(d.stage) < i < 5 ==> trace[i].outcome == Skipped)
  }

  /** The steps of the first `index` stages when none of them had an opinion. */
  ghost predicate SilentTrace(trace: seq<TraceStep>, index: nat)
    requires index <= 4
  {
    && |trace| == index
    && forall i :: 0 <= i < index ==>
         trace[i].stage == STAGES[i] && trace[i].outcome == NoOpinion && Trim(trace[i].reason) != ""
  }

  /** Evaluation stopped with an error at stage `k`, after silence. */
  ghost predicate StoppedAt(engine: Engine, input: Input, trace: seq<TraceStep>, k: nat) {
    && k < 4 && k <= |trace| <= k + 1
    && SilentBefore(engine, k, input) && SilentTrace(trace[..k], k)
    && EvaluatorAt(engine, k).Some?
    && var e := EvaluatorAt(engine, k).value;
       if |trace| == k then MayReturn(e, input, Failed)
       else
         && trace[k].stage == STAGES[k] && trace[k].outcome !in {NoOpinion, Allow, Deny}
         && exists reason :: MayReturn(e, input, Evaluated(trace[k].outcome, reason))
  }

  /** The reason the trace records for a silent stage. */
  ghost predicate SilentReason(engine: Engine, index: nat, input: Input, recorded: string) {
    match EvaluatorAt(engine, index)
    case None => recorded == "stage evaluator is not configured"
    case Some(e) => exists reason ::
      && MayReturn(e, input, Evaluated(NoOpinion, reason))
      && recorded == if Trim(reason) != "" then Trim(reason) else "no policy opinion"
  }

  /** The first `index` steps of the trace are silent for the reasons they record. */
  ghost predicate Recorded(engine: Engine, input: Input, trace: seq<TraceStep>, index: nat) {
    index <= |trace| && forall i :: 0 <= i < index ==> SilentReason(engine, i, input, trace[i].reason)
  }

  lemma RecordedMore(engine: Engine, input: Input, trace: seq<TraceStep>, more: seq<TraceStep>, index: nat)
    requires Recorded(engine, input, trace, index)
    ensures Recorded(engine, input, trace + more, index)
  {
    hide SilentReason;
  }

  lemma RecordedNext(engine: Engine, input: Input, trace: seq<TraceStep>, step: TraceStep)
    requires Recorded(engine, input, trace, |trace|) && SilentReason(engine, |trace|, input, step.reason)
    ensures Recorded(engine, input, trace + [step], |trace| + 1)
  {
    hide SilentReason;
  }

  /** A silent evaluator's cleaned reason is what the trace records. */
  lemma SilentRecorded(engine: Engine, input: Input, index: nat, reason: string)
    requires EvaluatorAt(engine, index).Some?
    requires MayReturn(EvaluatorAt(engine, index).value, input, Evaluated(NoOpinion, reason))
    ensures SilentReason(engine, index, input, CleanReason(NoOpinion, reason))
  {
    hide MayReturn, Trim;
  }

  const UNCONFIGURED := "authorization" + " policy engine is not configured"

  /** The reason a decision gives: the deciding evaluator's own, or a fixed text. */
  ghost predicate Explained(engine: Option<Engine>, input: Input, d: Decision) {
    if engine.None? then d.reason == UNCONFIGURED
    else if d.stage == DefaultDeny then d.reason == "no policy granted access"
    else
      && EvaluatorAt(engine.value, IndexOf(d.stage)).Some?
      && exists reason ::
           && MayReturn(
                EvaluatorAt(engine.value, IndexOf(d.stage)).value, input,
                Evaluated(if d.allowed then Allow else Deny, reason))
           && d.reason ==
                if Trim(reason) != "" then Trim(reason)
                else if d.allowed then "policy grants action"
                else "policy denies action"
  }

  function DefaultReason(outcome: Outcome, reason: string): string {
    if reason != "" then reason
    else match outcome
      case NoOpinion => "no policy opinion"
      case Allow => "policy grants action"
      case Deny => "policy denies action"
      case _ => ""
  }

  function DenyDecision(stage: Stage, reason: string): Decision {
    Decision(false, stage, if Trim(reason) == "" then "access denied" else Trim(reason))
  }

  lemma Readable(s: string)
    requires s != "" && 'a' <= s[0] <= 'z' && 'a' <= s[|s| - 1] <= 'z'
    ensures Trim(s) == s
  {
  }

  /** The remaining stages of a decided trace. */
  function SkippedSteps(index: nat): (r: seq<TraceStep>)
    requires index <= 5
    ensures |r| == 5 - index
    ensures forall i :: 0 <= i < |r| ==>
        r[i] == TraceStep(STAGES[index + i], Skipped, "skipped after terminal decision")
    decreases 5 - index
  {
    if index == 5 then []
    else [TraceStep(STAGES[index], Skipped, "skipped after terminal decision")] + SkippedSteps(index + 1)
  }

  method UnconfiguredTrace() returns (d: Decision, trace: seq<TraceStep>)
    ensures TraceShape(false, d, trace) && !d.allowed && d.stage == DefaultDeny
    ensures d.reason == UNCONFIGURED
  {
    hide Trim;
    Readable("policy engine is not configured");
    var message := UNCONFIGURED;
    assert message[0] == 'a' && message[|message| - 1] == 'd';
    Readable(message);
    trace := [];
    for i := 0 to 4
      invariant |trace| == i
      invariant forall j :: 0 <= j < i ==>
          trace[j] == TraceStep(STAGES[j], Skipped, "policy engine is not configured")
    {
      trace := trace + [TraceStep(STAGES[i], Skipped, "policy engine is not configured")];
    }
    d := DenyDecision(DefaultDeny, message);
    trace := trace + [TraceStep(DefaultDeny, Deny, d.reason)];
  }

  lemma DecidedShape(before: seq<TraceStep>, index: nat, d: Decision, outcome: Outcome)
    requires index < 4 && SilentTrace(before, index)
    requires outcome == if d.allowed then Allow else Deny
    requires d.stage == STAGES[index] && Trim(d.reason) != ""
    ensures TraceShape(true, d, before + [TraceStep(d.stage, outcome, d.reason)] + SkippedSteps(index + 1))
  {
    hide Trim, SkippedSteps;
    Readable("skipped after terminal decision");
    assert IndexOf(d.stage) == index;
    var rest := SkippedSteps(index + 1);
    var trace := before + [TraceStep(d.stage, outcome, d.reason)] + rest;
    forall i | 0 <= i < 5
      ensures trace[i].stage == STAGES[i] && Trim(trace[i].reason) != ""
      ensures trace[i].outcome == if i < index then NoOpinion else if i == index then outcome else Skipped
    {
      if i > index {
        assert trace[i] == rest[i - index - 1];
      }
    }
  }

  lemma DefaultShape(before: seq<TraceStep>, d: Decision)
    requires SilentTrace(before, 4)
    requires !d.allowed && d.stage == DefaultDeny && Trim(d.reason) != ""
    ensures TraceShape(true, d, before + [TraceStep(DefaultDeny, Deny, d.reason)])
  {
  }

  lemma LastStage()
    ensures IndexOf(DefaultDeny) == 4
  {
  }

  lemma NothingRecorded(engine: Option<Engine>, input: Input)
    ensures engine.Some? ==> Recorded(engine.value, input, [], 0)
  {
  }

  lemma Unevaluated(engine: Engine, input: Input, index: nat)
    requires EvaluatorAt(engine, index).None?
    ensures SilentReason(engine, index, input, "stage evaluator is not configured")
  {
  }

  lemma UnconfiguredExplained(input: Input, d: Decision)
    requires d.reason == UNCONFIGURED
    ensures Explained(None, input, d)
  {
  }

  lemma DefaultExplained(engine: Engine, input: Input, d: Decision)
    requires d.stage == DefaultDeny && d.reason == "no policy granted access"
    ensures Explained(Some(engine), input, d)
  {
  }

  /** The cleaned reason of the evaluator that decided explains the decision. */
  lemma DecidedExplained(engine: Engine, input: Input, index: nat, outcome: Outcome, reason: string, d: Decision)
    requires index < 4 && EvaluatorAt(engine, index).Some? && outcome == if d.allowed then Allow else Deny
    requires MayReturn(EvaluatorAt(engine, index).value, input, Evaluated(outcome, reason))
    requires d.stage == STAGES[index] && d.reason == CleanReason(outcome, reason)
    ensures Explained(Some(engine), input, d)
  {
    hide Trim, MayReturn;
    assert IndexOf(d.stage) == index;
  }

  method DecideWithTrace(engine: Option<Engine>, input: Input) returns (r: Result<Decision>, trace: seq<TraceStep>)
    ensures r.Ok? ==> TraceShape(engine.Some?, r.value, trace)
    ensures r.Ok? && engine.Some? ==> MayDecide(engine.value, input, r.value.allowed, r.value.stage)
    ensures r.Err? ==> engine.Some? && exists k: nat :: StoppedAt(engine.value, input, trace, k)
    ensures r.Ok? ==> Explained(engine, input, r.value)
    ensures r.Ok? && engine.Some? ==> Recorded(engine.value, input, trace, IndexOf(r.value.stage))
  {
    hide Trim, MayReturn, SkippedSteps, CleanReason, TraceShape, Explained, IndexOf, Recorded, SilentReason;
    trace := [];
    NothingRecorded(engine, input);
    if engine.None? {
      var denied, skipped := UnconfiguredTrace();
      UnconfiguredExplained(input, denied);
      return Ok(denied), skipped;
    }
    for index := 0 to 4
      invariant SilentTrace(trace, index)
      invariant SilentBefore(engine.value, index, input)
      invariant Recorded(engine.value, input, trace, index)
    {
      var stage := STAGES[index];
      var evaluator := EvaluatorAt(engine.value, index);
      if evaluator.None? {
        Readable("stage evaluator is not configured");
        Unevaluated(engine.value, input, index);
        RecordedNext(engine.value, input, trace, TraceStep(stage, NoOpinion, "stage evaluator is not configured"));
        trace := trace + [TraceStep(stage, NoOpinion, "stage evaluator is not configured")];
        continue;
      }
      var evaluation := EvaluateStage(evaluator.value, input);
      if evaluation.Failed? {
        assert trace[..index] == trace;
        assert StoppedAt(engine.value, input, trace, index);
        return Err("evaluate stage policy"), trace;
      }
      var outcome := evaluation.outcome;
      assert MayReturn(evaluator.value, input, Evaluated(outcome, evaluation.reason));
      var reason := CleanReason(outcome, evaluation.reason);
      ghost var before := trace;
      RecordedMore(engine.value, input, before, [TraceStep(stage, outcome, reason)], index);
      if outcome == NoOpinion {
        SilentRecorded(engine.value, input, index, evaluation.reason);
        RecordedNext(engine.value, input, before, TraceStep(stage, outcome, reason));
      }
      trace := trace + [TraceStep(stage, outcome, reason)];
      if outcome == Allow || outcome == Deny {
        RecordedMore(engine.value, input, trace, SkippedSteps(index + 1), index);
        var d := if outcome == Allow then Decision(true, stage, reason) else DenyDecision(stage, reason);
        trace := trace + SkippedSteps(index + 1);
        DecidedShape(before, index, d, outcome);
        DecidedExplained(engine.value, input, index, outcome, evaluation.reason, d);
        assert IndexOf(stage) == index;
        return Ok(d), trace;
      }
      if outcome != NoOpinion {
        assert trace[..index] == before;
        assert StoppedAt(engine.value, input, trace, index);
        return Err("invalid outcome"), trace;
      }
    }
    Readable("no policy granted access");
    var d := DenyDecision(DefaultDeny, "no policy granted access");
    DefaultShape(trace, d);
    DefaultExplained(engine.value, input, d);
    RecordedMore(engine.value, input, trace, [TraceStep(DefaultDeny, Deny, d.reason)], 4);
    assert IndexOf(DefaultDeny) == 4 by {
      LastStage();
    }
    trace := trace + [TraceStep(DefaultDeny, Deny, d.reason)];
    return Ok(d), trace;
  }

  function CleanReason(outcome: Outcome, reason: string): (r: string)
    ensures outcome in {NoOpinion, Allow, Deny} ==> Trim(r) == r && r != ""
  {
    Readable("no policy opinion");
    Readable("policy grants action");
    Readable("policy denies action");
    DefaultReason(outcome, Trim(reason))
  }

  lemma StoppedFails(engine: Engine, input: Input, trace: seq<TraceStep>, k: nat)
    requires StoppedAt(engine, input, trace, k)
    ensures k < 4 && StageFails(engine, k, input)
  {
    hide MayReturn;
  }

  method Decide(engine: Option<Engine>, input: Input) returns (r: Result<Decision>)
    ensures r.Ok? && engine.Some? ==> MayDecide(engine.value, input, r.value.allowed, r.value.stage)
    ensures engine.None? ==> r.Ok? && !r.value.allowed && r.value.stage == DefaultDeny
    ensures r.Err? ==> engine.Some? && exists k: nat :: k < 4 && StageFails(engine.value, k, input)
    ensures r.Ok? ==> Trim(r.value.reason) != "" && Explained(engine, input, r.value)
  {
    var trace;
    r, trace := DecideWithTrace(engine, input);
    if r.Err? {
      ghost var k: nat :| StoppedAt(engine.value, input, trace, k);
      StoppedFails(engine.value, input, trace, k);
    }
  }

  // ----- trace and decision determine each other -----

  ghost function Terminal(trace: seq<TraceStep>): set<nat> {
    set i: nat | i < |trace| && (trace[i].outcome == Allow || trace[i].outcome == Deny)
  }

  /** A trace tells the decision: exactly one step allows or denies, and it is the
      decision's stage, outcome and reason. */
  lemma TraceTellsDecision(configured: bool, d: Decision, trace: seq<TraceStep>)
    requires TraceShape(configured, d, trace)
    ensures Terminal(trace) == {IndexOf(d.stage)}
    ensures forall other :: TraceShape(configured, other, trace) ==> other == d
  {
    forall other | TraceShape(configured, other, trace)
      ensures other == d
    {
      assert IndexOf(other.stage) in Terminal(trace);
    }
  }

  /** A decision tells every outcome of its trace. */
  lemma DecisionTellsTrace(configured: bool, d: Decision, s: seq<TraceStep>, t: seq<TraceStep>)
    requires TraceShape(configured, d, s) && TraceShape(configured, d, t)
    ensures forall i :: 0 <= i < 5 ==> s[i].stage == t[i].stage && s[i].outcome == t[i].outcome
  {
    forall i | 0 <= i < 5
      ensures s[i].outcome == t[i].outcome
    {
      if i == IndexOf(d.stage) {
      }
    }
  }
}
