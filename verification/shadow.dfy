/** The shadow evaluation counters: concurrent requests evaluate the candidate policy beside
    the deciding one and publish a divergence rate. Each atomic counter operation is one
    step; any number of requests interleave. */
module Shadow {
  import opened Lists
  import Engine

  /** The counters are unsigned 64-bit integers and wrap around. */
  const WRAP := 0x1_0000_0000_0000_0000

  datatype Verdict = Pending | Agrees | Diverges | Errs

  datatype Phase = Entered | Decided | Loaded(divergences: nat) | Finished

  /** `total` is what the request's own increment returned; `ticket` is its true rank. */
  datatype Evaluation = Evaluation(ticket: nat, total: nat, verdict: Verdict, phase: Phase)

  datatype State = State(
    evaluations: nat, divergences: nat, rate: Option<real>, requests: map<nat, Evaluation>)

  function Wrapped(n: nat): (r: nat)
    ensures r < WRAP
    ensures n < WRAP ==> r == n
  {
    n % WRAP
  }

  lemma WrappedNext(n: nat)
    ensures Wrapped(Wrapped(n) + 1) == Wrapped(n + 1)
  {
  }

  /** A missing candidate decision is a candidate engine error. */
  datatype Action =
    | Enter
    | Decide(current: Engine.Decision, candidate: Option<Engine.Decision>)
    | Load
    | Publish

  predicate DecisionsDiverge(current: Engine.Decision, candidate: Engine.Decision) {
    current.allowed != candidate.allowed || current.stage != candidate.stage
  }

  function Judge(current: Engine.Decision, candidate: Option<Engine.Decision>): Verdict {
    match candidate
    case None => Errs
    case Some(decision) => if DecisionsDiverge(current, decision) then Diverges else Agrees
  }

  function Rate(divergences: nat, total: nat): real
    requires total > 0
  {
    divergences as real / total as real
  }

  function Start(): State {
    State(0, 0, None, map[])
  }

  ghost predicate Enters(s: State, d: nat, t: State) {
    var total := Wrapped(s.evaluations + 1);
    && d !in s.requests
    && t == s.(
      evaluations := total,
      requests := s.requests[d := Evaluation(|s.requests| + 1, total, Pending, Entered)])
  }

  ghost predicate Decides(s: State, d: nat, verdict: Verdict, t: State) {
    && d in s.requests && s.requests[d].phase.Entered?
    && t == s.(
      divergences := if verdict.Diverges? then Wrapped(s.divergences + 1) else s.divergences,
      requests := s.requests[d := s.requests[d].(verdict := verdict, phase := Decided)])
  }

  /** Nothing is published for a total that wrapped around to zero. */
  ghost predicate Loads(s: State, d: nat, t: State) {
    && d in s.requests && s.requests[d].phase.Decided?
    && t == s.(requests := s.requests[d := s.requests[d].(
      phase := if s.requests[d].total > 0 then Loaded(s.divergences) else Finished)])
  }

  ghost predicate Publishes(s: State, d: nat, t: State) {
    && d in s.requests && s.requests[d].phase.Loaded? && s.requests[d].total > 0
    && t == s.(
      rate := Some(Rate(s.requests[d].phase.divergences, s.requests[d].total)),
      requests := s.requests[d := s.requests[d].(phase := Finished)])
  }

  ghost predicate Step(s: State, d: nat, a: Action, t: State) {
    match a
    case Enter => Enters(s, d, t)
    case Decide(current, candidate) => Decides(s, d, Judge(current, candidate), t)
    case Load => Loads(s, d, t)
    case Publish => Publishes(s, d, t)
  }

  ghost predicate Run(states: seq<State>, steps: seq<(nat, Action)>) {
    && |states| == |steps| + 1 && states[0] == Start()
    && forall i :: 0 <= i < |steps| ==> Step(states[i], steps[i].0, steps[i].1, states[i + 1])
  }

  // ----- what the counters count -----

  ghost function Diverged(s: State): set<nat> {
    set d | d in s.requests && s.requests[d].verdict.Diverges?
  }

  /** The requests among the first `n` to enter. */
  ghost function Early(s: State, n: nat): set<nat> {
    set d | d in s.requests && s.requests[d].ticket <= n
  }

  ghost predicate CountersExact(s: State) {
    && s.evaluations == Wrapped(|s.requests|)
    && s.divergences == Wrapped(|Diverged(s)|)
  }

  ghost predicate TicketsExact(s: State) {
    && (forall d :: d in s.requests ==>
          1 <= s.requests[d].ticket <= |s.requests| && s.requests[d].total == Wrapped(s.requests[d].ticket)
          && (s.requests[d].phase.Entered? <==> s.requests[d].verdict.Pending?))
    && (forall n: nat :: n <= |s.requests| ==> |Early(s, n)| == n)
  }

  ghost predicate Inv(s: State) {
    CountersExact(s) && TicketsExact(s)
  }

  lemma EnterKeys(s: State, d: nat, t: State)
    requires Enters(s, d, t)
    ensures t.requests.Keys == s.requests.Keys + {d} && |t.requests| == |s.requests| + 1
  {
    hide Wrapped;
    assert t.requests.Keys == s.requests.Keys + {d};
  }

  lemma EnterEarly(s: State, d: nat, t: State, n: nat)
    requires TicketsExact(s) && Enters(s, d, t) && n <= |t.requests|
    ensures |Early(t, n)| == n
  {
    hide Wrapped;
    EnterKeys(s, d, t);
    if n <= |s.requests| {
      assert Early(t, n) == Early(s, n);
    } else {
      assert Early(t, n) == t.requests.Keys;
    }
  }

  lemma EnterCounts(s: State, d: nat, t: State)
    requires CountersExact(s) && Enters(s, d, t)
    ensures CountersExact(t)
  {
    EnterKeys(s, d, t);
    WrappedNext(|s.requests|);
    hide Wrapped;
    assert Diverged(t) == Diverged(s);
  }

  lemma EnterKeeps(s: State, d: nat, t: State)
    requires Inv(s) && Enters(s, d, t)
    ensures Inv(t) && |t.requests| == |s.requests| + 1
  {
    hide Wrapped, Diverged, Early;
    EnterKeys(s, d, t);
    EnterCounts(s, d, t);
    WrappedNext(|s.requests|);
    forall n: nat | n <= |t.requests|
      ensures |Early(t, n)| == n
    {
      EnterEarly(s, d, t, n);
    }
  }

  /** A later step of a request moves neither its ticket nor anybody else. */
  ghost predicate Advances(s: State, d: nat, t: State) {
    && d in s.requests && t.requests.Keys == s.requests.Keys && t.evaluations == s.evaluations
    && t.requests[d].ticket == s.requests[d].ticket && t.requests[d].total == s.requests[d].total
    && forall c :: c in s.requests && c != d ==> t.requests[c] == s.requests[c]
  }

  lemma TicketsKept(s: State, d: nat, t: State)
    requires TicketsExact(s) && Advances(s, d, t)
    requires t.requests[d].phase.Entered? <==> t.requests[d].verdict.Pending?
    ensures TicketsExact(t) && |t.requests| == |s.requests|
  {
    assert |t.requests.Keys| == |s.requests.Keys|;
    forall n: nat | n <= |t.requests|
      ensures |Early(t, n)| == n
    {
      assert Early(t, n) == Early(s, n);
    }
  }

  lemma DecideKeeps(s: State, d: nat, verdict: Verdict, t: State)
    requires Inv(s) && Decides(s, d, verdict, t) && !verdict.Pending?
    ensures Inv(t) && |t.requests| == |s.requests|
  {
    hide Wrapped, Early, CountersExact;
    TicketsKept(s, d, t);
    DecideCounts(s, d, verdict, t);
  }

  lemma DecideCounts(s: State, d: nat, verdict: Verdict, t: State)
    requires Inv(s) && Decides(s, d, verdict, t)
    ensures CountersExact(t)
  {
    DivergedNext(s, d, verdict, t);
    WrappedNext(|Diverged(s)|);
    hide Wrapped, Early, Diverged;
  }

  lemma DivergedNext(s: State, d: nat, verdict: Verdict, t: State)
    requires TicketsExact(s) && Decides(s, d, verdict, t)
    ensures |t.requests| == |s.requests|
    ensures |Diverged(t)| == |Diverged(s)| + (if verdict.Diverges? then 1 else 0)
  {
    hide Early, Wrapped;
    assert t.requests.Keys == s.requests.Keys && |t.requests.Keys| == |s.requests.Keys|;
    assert d !in Diverged(s);
    assert Diverged(t) == if verdict.Diverges? then Diverged(s) + {d} else Diverged(s);
  }

  lemma FinishKeeps(s: State, d: nat, t: State)
    requires Inv(s) && (Loads(s, d, t) || Publishes(s, d, t))
    ensures Inv(t) && |t.requests| == |s.requests|
  {
    TicketsKept(s, d, t);
    assert Diverged(t) == Diverged(s);
  }

  lemma StepKeeps(s: State, d: nat, a: Action, t: State)
    requires Inv(s) && Step(s, d, a, t)
    ensures Inv(t) && |s.requests| <= |t.requests|
  {
    hide Inv, Enters, Decides, Loads, Publishes;
    match a
    case Enter => EnterKeeps(s, d, t);
    case Decide(current, candidate) => DecideKeeps(s, d, Judge(current, candidate), t);
    case Load => FinishKeeps(s, d, t);
    case Publish => FinishKeeps(s, d, t);
  }

  lemma {:induction false} RunInv(states: seq<State>, steps: seq<(nat, Action)>, i: nat)
    requires Run(states, steps) && i <= |steps|
    ensures Inv(states[i])
  {
    if i == 0 {
      assert Diverged(Start()) == {} && forall n: nat :: Early(Start(), n) == {};
    } else {
      hide Inv, Step;
      RunInv(states, steps, i - 1);
      StepKeeps(states[i - 1], steps[i - 1].0, steps[i - 1].1, states[i]);
    }
  }

  /** Main result, field by field: a request that finished evaluating counts as a divergence
      exactly when the candidate decided and differs in verdict or stage; reasons and
      candidate errors do not count. The counter wraps around at 2^64. */
  lemma DecideExact(s: State, d: nat, current: Engine.Decision, candidate: Option<Engine.Decision>, t: State)
    requires Step(s, d, Decide(current, candidate), t) && s.divergences < 18446744073709551616
    ensures var differs := candidate.Some?
          && (candidate.value.allowed != current.allowed || candidate.value.stage != current.stage);
        && t.divergences ==
           (if !differs then s.divergences else if s.divergences == 18446744073709551615 then 0 else s.divergences + 1)
        && t.evaluations == s.evaluations && t.rate == s.rate
        && d in t.requests && (d in Diverged(t) <==> differs)
  {
  }

  /** Entering counts an evaluation, with the same wrap-around, and nothing else. */
  lemma EnterExact(s: State, d: nat, t: State)
    requires Step(s, d, Enter, t) && s.evaluations < 18446744073709551616
    ensures t.evaluations == (if s.evaluations == 18446744073709551615 then 0 else s.evaluations + 1)
    ensures t.divergences == s.divergences && t.rate == s.rate
    ensures d in t.requests && t.requests[d].total == t.evaluations
  {
  }

  /** A rate is published for every evaluation but one whose count wrapped around to zero: the
      divergences counted so far over the request's own count. */
  lemma PublishExact(s: State, d: nat, t: State, u: State)
    requires d in s.requests && Step(s, d, Load, t)
    ensures d in t.requests
    ensures t.requests[d].phase == Finished <==> s.requests[d].total == 0
    ensures Step(t, d, Publish, u) ==>
        s.requests[d].total > 0 && u.rate == Some(s.divergences as real / s.requests[d].total as real)
  {
  }

  /** Main result: in every interleaving each counter is, modulo 2^64, the number of requests
      past its increment, every divergence belongs to a counted evaluation, and below the
      wrap-around the divergence count never exceeds the evaluation count. */
  lemma CountersCount(states: seq<State>, steps: seq<(nat, Action)>, i: nat)
    requires Run(states, steps) && i <= |steps|
    ensures states[i].evaluations == Wrapped(|states[i].requests|)
    ensures states[i].divergences == Wrapped(|Diverged(states[i])|)
    ensures |Diverged(states[i])| <= |states[i].requests|
    ensures |states[i].requests| < WRAP ==> states[i].divergences <= states[i].evaluations
  {
    RunInv(states, steps, i);
    SubsetSize(Diverged(states[i]), states[i].requests.Keys);
  }

  lemma {:induction false} SubsetSize<T>(a: set<T>, b: set<T>)
    requires a <= b
    ensures |a| <= |b|
  {
    if a != {} {
      var x :| x in a;
      SubsetSize(a - {x}, b - {x});
    }
  }

  // ----- the published rate -----

  lemma RateBounds(divergences: nat, total: nat)
    requires total > 0
    ensures Rate(divergences, total) >= 0.0
    ensures Rate(divergences, total) <= 1.0 <==> divergences <= total
  {
    var r := Rate(divergences, total);
    assert r * total as real == divergences as real;
    if r > 1.0 {
      assert (r - 1.0) * total as real > 0.0;
    } else {
      assert (1.0 - r) * total as real >= 0.0;
    }
  }

  lemma SplitSize<T>(a: set<T>, b: set<T>)
    ensures |a| == |a * b| + |a - b|
  {
    assert a == a * b + (a - b);
  }

  /** Main result: the loaded count stays within the total captured on entry exactly when the
      later requests that already diverged are no more than the earlier ones that did not. */
  lemma RateExact(states: seq<State>, steps: seq<(nat, Action)>, i: nat)
    requires Run(states, steps) && i < |steps| && steps[i].1.Load? && |states[i].requests| < WRAP
    ensures steps[i].0 in states[i].requests && steps[i].0 in states[i + 1].requests
    ensures var s, x := states[i], states[i + 1].requests[steps[i].0];
        && x.phase.Loaded? && x.total == x.ticket > 0
        && (Rate(x.phase.divergences, x.total) <= 1.0 <==>
            |Diverged(s) - Early(s, x.ticket)| <= |Early(s, x.ticket) - Diverged(s)|)
  {
    RunInv(states, steps, i);
    assert Step(states[i], steps[i].0, steps[i].1, states[i + 1]);
    var s, x := states[i], states[i + 1].requests[steps[i].0];
    CountersCount(states, steps, i);
    SplitSize(Diverged(s), Early(s, x.ticket));
    SplitSize(Early(s, x.ticket), Diverged(s));
    assert Diverged(s) * Early(s, x.ticket) == Early(s, x.ticket) * Diverged(s);
    RateBounds(x.phase.divergences, x.total);
  }

  /** No request enters while another is being evaluated. */
  ghost predicate NoOverlap(states: seq<State>, steps: seq<(nat, Action)>)
    requires Run(states, steps)
  {
    forall i, d :: 0 <= i < |steps| && steps[i].1.Enter? && d in states[i].requests ==>
      states[i].requests[d].phase.Finished?
  }

  ghost predicate Tame(s: State) {
    && (forall d :: d in s.requests && !s.requests[d].phase.Finished? ==> s.requests[d].ticket == |s.requests|)
    && (forall d :: d in s.requests && s.requests[d].phase.Loaded? ==>
          s.requests[d].phase.divergences <= s.requests[d].total)
    && (s.rate.Some? ==> 0.0 <= s.rate.value <= 1.0)
  }

  lemma StepTame(s: State, d: nat, a: Action, t: State)
    requires Inv(s) && Tame(s) && Step(s, d, a, t) && |t.requests| < WRAP
    requires a.Enter? ==> forall c :: c in s.requests ==> s.requests[c].phase.Finished?
    ensures Tame(t)
  {
    match a
    case Enter =>
      assert t.requests.Keys == s.requests.Keys + {d};
      assert |t.requests| == |s.requests| + 1;
    case Decide(_, _) =>
      assert |t.requests.Keys| == |s.requests.Keys|;
    case Load =>
      assert |t.requests.Keys| == |s.requests.Keys|;
      SubsetSize(Diverged(s), s.requests.Keys);
    case Publish =>
      assert |t.requests.Keys| == |s.requests.Keys|;
      RateBounds(s.requests[d].phase.divergences, s.requests[d].total);
  }

  lemma {:induction false} RunTame(states: seq<State>, steps: seq<(nat, Action)>, i: nat)
    requires Run(states, steps) && i <= |steps| && NoOverlap(states, steps)
    requires |states[i].requests| < WRAP
    ensures Tame(states[i])
  {
    hide Inv, Step;
    if i > 0 {
      RunInv(states, steps, i - 1);
      StepKeeps(states[i - 1], steps[i - 1].0, steps[i - 1].1, states[i]);
      RunTame(states, steps, i - 1);
      StepTame(states[i - 1], steps[i - 1].0, steps[i - 1].1, states[i]);
    }
  }

  /** Main result: when shadow evaluations do not overlap, every published rate is a
      proportion. */
  lemma RateIsProportion(states: seq<State>, steps: seq<(nat, Action)>, i: nat)
    requires Run(states, steps) && i <= |steps| && NoOverlap(states, steps)
    requires |states[i].requests| < WRAP && states[i].rate.Some?
    ensures 0.0 <= states[i].rate.value <= 1.0
  {
    RunTame(states, steps, i);
  }

  /** Two overlapping evaluations that both diverge publish a rate of two: the first
      captured a total of one and then loaded both divergences. */
  lemma OverlapPublishesTwo(current: Engine.Decision, candidate: Engine.Decision)
    returns (states: seq<State>, steps: seq<(nat, Action)>)
    requires DecisionsDiverge(current, candidate)
    ensures Run(states, steps) && states[|steps|].rate == Some(2.0)
  {
    var decide := Decide(current, Some(candidate));
    steps := [(0, Enter), (1, Enter), (0, decide), (1, decide), (0, Load), (0, Publish)];
    var a1 := Evaluation(1, 1, Pending, Entered);
    var b1 := Evaluation(2, 2, Pending, Entered);
    var a2 := a1.(verdict := Diverges, phase := Decided);
    var b2 := b1.(verdict := Diverges, phase := Decided);
    var a3, a4 := a2.(phase := Loaded(2)), a2.(phase := Finished);
    states := [
      Start(), State(1, 0, None, map[0 := a1]), State(2, 0, None, map[0 := a1, 1 := b1]),
      State(2, 1, None, map[0 := a2, 1 := b1]), State(2, 2, None, map[0 := a2, 1 := b2]),
      State(2, 2, None, map[0 := a3, 1 := b2]), State(2, 2, Some(2.0), map[0 := a4, 1 := b2])];
    assert Enters(states[0], 0, states[1]);
    assert Enters(states[1], 1, states[2]);
    assert Decides(states[2], 0, Diverges, states[3]);
    assert Decides(states[3], 1, Diverges, states[4]);
    assert Loads(states[4], 0, states[5]);
    assert Rate(2, 1) == 2.0;
    assert Publishes(states[5], 0, states[6]);
  }
}
