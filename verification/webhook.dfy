/** The webhook idempotency ledger: deliveries of provider events claim a shared row, apply
    side effects, then complete or roll back the claim, fenced by claim tokens. Each
    database statement is one atomic step; deliveries interleave freely and may crash. */
module Webhook {
  import opened Text

  // Times are in seconds.
  const RECLAIM_AFTER := 300
  const RETENTION := 30 * 24 * 3600
  const ATTEMPTS := 3

  type EventId = string

  datatype Status = Processing | Processed

  datatype Row = Row(status: Status, token: nat, at: int)

  datatype Response = Duplicate | RetryLater | Accepted | Rejected | ServerError

  datatype Phase =
    | Inserting(attempt: nat)
    | Reclaiming(attempt: nat)
    | Reading(attempt: nat)
    | Sweeping
    | Claimed
    | Settled(answer: Response)
    | FailedTransiently
    | Answered(answer: Response)
    | Crashed

  datatype Delivery = Delivery(event: EventId, now: int, token: nat, phase: Phase)

  // ----- the payload's effect -----

  datatype ServiceResult = ServiceOk | ServiceNotFound | ServiceConflict | ServiceError

  /** Applied: the side effect took hold. Final: an identical retry cannot do better. */
  datatype Effect = Applied(answer: Response) | Final(answer: Response) | Transient

  function EffectOf(eventType: string, userId: string, email: string, result: ServiceResult): Effect {
    if eventType == "user.deleted" then
      if Trim(userId) == "" then Final(Rejected)
      else match result
        case ServiceOk => Applied(Accepted)
        case ServiceNotFound => Final(Accepted)
        case _ => Transient
    else if eventType == "user.email_changed" || eventType == "user.updated" then
      if Trim(userId) == "" || Trim(email) == "" then Final(Rejected)
      else match result
        case ServiceOk => Applied(Accepted)
        case ServiceNotFound => Final(Accepted)
        case ServiceConflict => Final(Rejected)
        case ServiceError => Transient
    else Final(Accepted)
  }

  // ----- ledger statements -----

  function Claim(rows: map<EventId, Row>, e: EventId, token: nat, now: int): map<EventId, Row> {
    rows[e := Row(Processing, token, now)]
  }

  predicate Stale(row: Row, now: int) {
    row.status == Processing && row.at < now - RECLAIM_AFTER
  }

  /** The two stores differ at exactly five minutes, so the boundary is left open. */
  predicate MayReclaim(row: Row, now: int) {
    row.status == Processing && row.at <= now - RECLAIM_AFTER
  }

  predicate Expired(row: Row, now: int) {
    row.at < now - RETENTION
  }

  function Swept(rows: map<EventId, Row>, now: int): map<EventId, Row> {
    map e | e in rows && !Expired(rows[e], now) :: rows[e]
  }

  predicate Holds(rows: map<EventId, Row>, e: EventId, token: nat) {
    e in rows && rows[e].token == token
  }

  function Completed(rows: map<EventId, Row>, e: EventId, token: nat, now: int): map<EventId, Row> {
    if Holds(rows, e, token) then rows[e := Row(Processed, token, now)] else rows
  }

  function Released(rows: map<EventId, Row>, e: EventId, token: nat): map<EventId, Row> {
    if Holds(rows, e, token) then rows - {e} else rows
  }

  // ----- the protocol -----

  /** `settled` and the tallies record history; no step reads them. */
  datatype State = State(
    rows: map<EventId, Row>, deliveries: map<nat, Delivery>, nextToken: nat,
    settled: set<EventId>, inserts: multiset<EventId>, reclaims: multiset<EventId>,
    swept: multiset<EventId>, releases: multiset<EventId>, applied: multiset<EventId>)

  datatype Action =
    | Arrive(event: EventId, now: int)
    | Insert(confirmed: bool)
    | Reclaim(taken: bool, confirmed: bool)
    | Read
    | BeginFails
    | Sweep(done: bool)
    | Apply(eventType: string, userId: string, email: string, result: ServiceResult)
    | Complete(landed: bool)
    | Release(landed: bool)
    | Crash

  function At(s: State, d: nat, phase: Phase): map<nat, Delivery>
    requires d in s.deliveries
  {
    s.deliveries[d := s.deliveries[d].(phase := phase)]
  }

  /** A statement may land although the delivery sees an error. */
  function AfterClaim(confirmed: bool): Phase {
    if confirmed then Sweeping else Answered(ServerError)
  }

  predicate Beginning(p: Phase) {
    p.Inserting? || p.Reclaiming? || p.Reading?
  }

  ghost predicate Arrives(s: State, d: nat, e: EventId, now: int, t: State) {
    d !in s.deliveries
    && t == s.(
      deliveries := s.deliveries[d := Delivery(e, now, s.nextToken, Inserting(0))], nextToken := s.nextToken + 1)
  }

  ghost predicate Inserts(s: State, d: nat, confirmed: bool, t: State)
    requires d in s.deliveries
  {
    var x := s.deliveries[d];
    x.phase.Inserting?
    && if x.event in s.rows then t == s.(deliveries := At(s, d, Reclaiming(x.phase.attempt)))
       else t == s.(
         rows := Claim(s.rows, x.event, x.token, x.now), deliveries := At(s, d, AfterClaim(confirmed)),
         inserts := s.inserts + multiset{x.event})
  }

  ghost predicate Reclaims(s: State, d: nat, taken: bool, confirmed: bool, t: State)
    requires d in s.deliveries
  {
    var x := s.deliveries[d];
    x.phase.Reclaiming?
    && (x.event in s.rows && Stale(s.rows[x.event], x.now) ==> taken)
    && (taken ==> x.event in s.rows && MayReclaim(s.rows[x.event], x.now))
    && if !taken then t == s.(deliveries := At(s, d, Reading(x.phase.attempt)))
       else t == s.(
         rows := Claim(s.rows, x.event, x.token, x.now), deliveries := At(s, d, AfterClaim(confirmed)),
         reclaims := s.reclaims + multiset{x.event})
  }

  /** A row that vanished between the statements sends the delivery back to the insert. */
  ghost predicate Reads(s: State, d: nat, t: State)
    requires d in s.deliveries
  {
    var x := s.deliveries[d];
    x.phase.Reading?
    && if x.event in s.rows then
         t == s.(deliveries :=
           At(s, d, Answered(if s.rows[x.event].status == Processed then Duplicate else RetryLater)))
       else if x.phase.attempt + 1 < ATTEMPTS then
         t == s.(
           deliveries := s.deliveries[d := x.(token := s.nextToken, phase := Inserting(x.phase.attempt + 1))],
           nextToken := s.nextToken + 1)
       else t == s.(deliveries := At(s, d, Answered(RetryLater)))
  }

  ghost predicate Sweeps(s: State, d: nat, done: bool, t: State)
    requires d in s.deliveries
  {
    var x := s.deliveries[d];
    var rows := if done then Swept(s.rows, x.now) else s.rows;
    x.phase.Sweeping?
    && t == s.(rows := rows, deliveries := At(s, d, Claimed), swept := s.swept + multiset(s.rows.Keys - rows.Keys))
  }

  ghost predicate Applies(s: State, d: nat, effect: Effect, t: State)
    requires d in s.deliveries
  {
    var x := s.deliveries[d];
    x.phase.Claimed?
    && match effect
       case Applied(answer) =>
         t == s.(deliveries := At(s, d, Settled(answer)), settled := s.settled + {x.event},
                 applied := s.applied + multiset{x.event})
       case Final(answer) =>
         t == s.(deliveries := At(s, d, Settled(answer)), settled := s.settled + {x.event})
       case Transient =>
         t == s.(deliveries := At(s, d, FailedTransiently))
  }

  ghost predicate Completes(s: State, d: nat, landed: bool, t: State)
    requires d in s.deliveries
  {
    var x := s.deliveries[d];
    x.phase.Settled?
    && t == s.(
      rows := if landed then Completed(s.rows, x.event, x.token, x.now) else s.rows,
      deliveries := At(s, d, Answered(x.phase.answer)))
  }

  ghost predicate Releases(s: State, d: nat, landed: bool, t: State)
    requires d in s.deliveries
  {
    var x := s.deliveries[d];
    x.phase.FailedTransiently?
    && t == s.(
      rows := if landed then Released(s.rows, x.event, x.token) else s.rows,
      deliveries := At(s, d, Answered(ServerError)),
      releases := if landed && Holds(s.rows, x.event, x.token) then s.releases + multiset{x.event} else s.releases)
  }

  ghost predicate Step(s: State, d: nat, a: Action, t: State) {
    if a.Arrive? then Arrives(s, d, a.event, a.now, t)
    else
      && d in s.deliveries
      && match a
         case Insert(confirmed) => Inserts(s, d, confirmed, t)
         case Reclaim(taken, confirmed) => Reclaims(s, d, taken, confirmed, t)
         case Read => Reads(s, d, t)
         case BeginFails => Beginning(s.deliveries[d].phase) && t == s.(deliveries := At(s, d, Answered(ServerError)))
         case Sweep(done) => Sweeps(s, d, done, t)
         case Apply(eventType, userId, email, result) => Applies(s, d, EffectOf(eventType, userId, email, result), t)
         case Complete(landed) => Completes(s, d, landed, t)
         case Release(landed) => Releases(s, d, landed, t)
         case Crash => !s.deliveries[d].phase.Answered? && t == s.(deliveries := At(s, d, Crashed))
  }

  ghost predicate Initial(s: State) {
    s == State(map[], map[], s.nextToken, {}, multiset{}, multiset{}, multiset{}, multiset{}, multiset{})
  }

  ghost predicate Run(states: seq<State>, steps: seq<(nat, Action)>) {
    && |states| == |steps| + 1 && Initial(states[0])
    && forall i :: 0 <= i < |steps| ==> Step(states[i], steps[i].0, steps[i].1, states[i + 1])
  }

  // ----- what every step keeps -----

  /** Tokens are never shared. */
  ghost predicate TokensApart(s: State) {
    && (forall d :: d in s.deliveries ==> s.deliveries[d].token < s.nextToken)
    && (forall c, d :: c in s.deliveries && d in s.deliveries && c != d ==>
          s.deliveries[c].token != s.deliveries[d].token)
  }

  /** A row carries the token and the time of a claim on its own event. */
  ghost predicate RowsFenced(s: State) {
    && (forall e :: e in s.rows ==> s.rows[e].token < s.nextToken)
    && (forall d, e :: Fenced(s, d, e))
  }

  ghost predicate Fenced(s: State, d: nat, e: EventId) {
    d in s.deliveries && Holds(s.rows, e, s.deliveries[d].token) ==>
      e == s.deliveries[d].event && !Beginning(s.deliveries[d].phase) && s.rows[e].at == s.deliveries[d].now
  }

  ghost predicate TokensFenced(s: State) {
    TokensApart(s) && RowsFenced(s)
  }

  /** A processed row, a settled delivery and an acknowledgement all mean the event settled. */
  ghost predicate AnswersEarned(s: State) {
    && (forall e :: e in s.rows && s.rows[e].status == Processed ==> e in s.settled)
    && (forall d :: d in s.deliveries && s.deliveries[d].phase.Settled? ==>
          s.deliveries[d].event in s.settled && s.deliveries[d].phase.answer in {Accepted, Rejected})
    && (forall d :: d in s.deliveries && Acknowledged(s.deliveries[d].phase) ==> s.deliveries[d].event in s.settled)
  }

  predicate Acknowledged(p: Phase) {
    p.Answered? && p.answer in {Duplicate, Accepted, Rejected}
  }

  /** Once its row is processed, a claim's holder has nothing left to do. */
  ghost predicate HoldersDone(s: State) {
    forall d, e ::
      d in s.deliveries && Holds(s.rows, e, s.deliveries[d].token) && s.rows[e].status == Processed ==>
        s.deliveries[d].phase.Answered?
  }

  ghost predicate Inv(s: State) {
    TokensFenced(s) && AnswersEarned(s) && HoldersDone(s)
  }

  ghost predicate OnlyMoves(s: State, d: nat, t: State) {
    && d in t.deliveries && t.deliveries.Keys == s.deliveries.Keys + {d}
    && forall c :: c in s.deliveries && c != d ==> t.deliveries[c] == s.deliveries[c]
  }

  /** A delivery moves on and rows keep their tokens and times, or go. */
  lemma FencesKept(s: State, d: nat, t: State)
    requires TokensFenced(s) && d in s.deliveries && OnlyMoves(s, d, t) && t.nextToken == s.nextToken
    requires t.deliveries[d] == s.deliveries[d].(phase := t.deliveries[d].phase)
    requires Beginning(t.deliveries[d].phase) ==> Beginning(s.deliveries[d].phase)
    requires forall e :: e in t.rows ==>
        e in s.rows && t.rows[e].token == s.rows[e].token && t.rows[e].at == s.rows[e].at
    ensures TokensFenced(t)
  {
    forall c, e
      ensures Fenced(t, c, e)
    {
      assert Fenced(s, c, e);
    }
  }

  /** A delivery takes a new token. */
  lemma FencesFresh(s: State, d: nat, t: State)
    requires TokensFenced(s) && OnlyMoves(s, d, t) && t.nextToken == s.nextToken + 1 && t.rows == s.rows
    requires t.deliveries[d].token == s.nextToken
    ensures TokensFenced(t)
  {
    forall c, e
      ensures Fenced(t, c, e)
    {
      assert Fenced(s, c, e);
    }
  }

  /** A beginning delivery puts its own token on its event's row. */
  lemma FencesClaim(s: State, d: nat, t: State)
    requires TokensFenced(s) && d in s.deliveries && OnlyMoves(s, d, t) && t.nextToken == s.nextToken
    requires var x := s.deliveries[d];
        && Beginning(x.phase) && !Beginning(t.deliveries[d].phase)
        && t.deliveries[d] == x.(phase := t.deliveries[d].phase)
        && t.rows == Claim(s.rows, x.event, x.token, x.now)
    ensures TokensFenced(t)
  {
    forall c, e
      ensures Fenced(t, c, e)
    {
      assert Fenced(s, c, e);
    }
  }

  /** Completing rewrites the time the claim already carries. */
  lemma CompletedAt(s: State, d: nat)
    requires TokensFenced(s) && d in s.deliveries
    ensures var x := s.deliveries[d]; Holds(s.rows, x.event, x.token) ==> s.rows[x.event].at == x.now
  {
    assert Fenced(s, d, s.deliveries[d].event);
  }

  lemma EarnedKept(s: State, d: nat, t: State)
    requires AnswersEarned(s) && OnlyMoves(s, d, t) && s.settled <= t.settled
    requires forall e :: e in t.rows && t.rows[e].status == Processed ==> e in t.settled
    requires var y := t.deliveries[d];
        && (y.phase.Settled? ==> y.event in t.settled && y.phase.answer in {Accepted, Rejected})
        && (Acknowledged(y.phase) ==> y.event in t.settled)
    ensures AnswersEarned(t)
  {
  }

  lemma DoneKept(s: State, d: nat, t: State)
    requires HoldersDone(s) && OnlyMoves(s, d, t)
    requires forall e :: e in t.rows && t.rows[e].status == Processed ==>
        e in s.rows && s.rows[e] == t.rows[e]
    requires t.deliveries[d].phase.Answered?
        || forall e :: Holds(t.rows, e, t.deliveries[d].token) ==> t.rows[e].status == Processing
    ensures HoldersDone(t)
  {
    forall c, e | c in t.deliveries && Holds(t.rows, e, t.deliveries[c].token) && t.rows[e].status == Processed
      ensures t.deliveries[c].phase.Answered?
    {
      if c != d {
        assert Holds(s.rows, e, s.deliveries[c].token);
      }
    }
  }

  lemma NotDoneYet(s: State, d: nat)
    requires HoldersDone(s) && d in s.deliveries && !s.deliveries[d].phase.Answered?
    ensures forall e :: Holds(s.rows, e, s.deliveries[d].token) ==> s.rows[e].status == Processing
  {
  }

  lemma FreshUnheld(s: State)
    requires TokensFenced(s)
    ensures forall e :: !Holds(s.rows, e, s.nextToken)
  {
  }

  lemma ProcessedSettled(s: State)
    requires AnswersEarned(s)
    ensures forall e :: e in s.rows && s.rows[e].status == Processed ==> e in s.settled
  {
  }

  lemma EarnedPhase(s: State, d: nat)
    requires AnswersEarned(s) && d in s.deliveries && s.deliveries[d].phase.Settled?
    ensures s.deliveries[d].event in s.settled && s.deliveries[d].phase.answer in {Accepted, Rejected}
  {
  }

  lemma ArriveKeeps(s: State, d: nat, e: EventId, now: int, t: State)
    requires Inv(s) && Arrives(s, d, e, now, t)
    ensures Inv(t)
  {
    ProcessedSettled(s);
    FreshUnheld(s);
    hide AnswersEarned, TokensFenced, HoldersDone;
    FencesFresh(s, d, t);
    EarnedKept(s, d, t);
    DoneKept(s, d, t);
  }

  lemma InsertKeeps(s: State, d: nat, confirmed: bool, t: State)
    requires Inv(s) && d in s.deliveries && Inserts(s, d, confirmed, t)
    ensures Inv(t)
  {
    ProcessedSettled(s);
    NotDoneYet(s, d);
    hide AnswersEarned, TokensFenced, HoldersDone;
    if s.deliveries[d].event in s.rows {
      FencesKept(s, d, t);
    } else {
      FencesClaim(s, d, t);
    }
    EarnedKept(s, d, t);
    DoneKept(s, d, t);
  }

  lemma ReclaimKeeps(s: State, d: nat, taken: bool, confirmed: bool, t: State)
    requires Inv(s) && d in s.deliveries && Reclaims(s, d, taken, confirmed, t)
    ensures Inv(t)
  {
    ProcessedSettled(s);
    NotDoneYet(s, d);
    hide AnswersEarned, TokensFenced, HoldersDone;
    if taken {
      FencesClaim(s, d, t);
    } else {
      FencesKept(s, d, t);
    }
    EarnedKept(s, d, t);
    DoneKept(s, d, t);
  }

  lemma ReadKeeps(s: State, d: nat, t: State)
    requires Inv(s) && d in s.deliveries && Reads(s, d, t)
    ensures Inv(t)
  {
    ProcessedSettled(s);
    FreshUnheld(s);
    hide AnswersEarned, TokensFenced, HoldersDone;
    if t.nextToken == s.nextToken {
      FencesKept(s, d, t);
    } else {
      FencesFresh(s, d, t);
    }
    EarnedKept(s, d, t);
    DoneKept(s, d, t);
  }

  lemma SweepKeeps(s: State, d: nat, done: bool, t: State)
    requires Inv(s) && d in s.deliveries && Sweeps(s, d, done, t)
    ensures Inv(t)
  {
    ProcessedSettled(s);
    NotDoneYet(s, d);
    hide AnswersEarned, TokensFenced, HoldersDone;
    FencesKept(s, d, t);
    EarnedKept(s, d, t);
    DoneKept(s, d, t);
  }

  lemma ApplyKeeps(s: State, d: nat, effect: Effect, t: State)
    requires Inv(s) && d in s.deliveries && Applies(s, d, effect, t)
    requires !effect.Transient? ==> effect.answer in {Accepted, Rejected}
    ensures Inv(t)
  {
    ProcessedSettled(s);
    NotDoneYet(s, d);
    hide AnswersEarned, TokensFenced, HoldersDone;
    FencesKept(s, d, t);
    EarnedKept(s, d, t);
    DoneKept(s, d, t);
  }

  lemma EffectAnswers(eventType: string, userId: string, email: string, result: ServiceResult)
    ensures var effect := EffectOf(eventType, userId, email, result);
        !effect.Transient? ==> effect.answer in {Accepted, Rejected}
  {
  }

  // ----- each statement, field by field -----

  /** The first statement claims an event without a row, whether or not the delivery learns of
      it, and otherwise leaves the ledger alone. */
  lemma InsertExact(s: State, d: nat, confirmed: bool, t: State)
    requires d in s.deliveries && Step(s, d, Insert(confirmed), t)
    ensures var x, phase := s.deliveries[d], t.deliveries[d].phase;
        && x.phase.Inserting?
        && (x.event in s.rows ==> t.rows == s.rows && phase == Reclaiming(x.phase.attempt))
        && (x.event !in s.rows ==>
              && t.rows == s.rows[x.event := Row(Processing, x.token, x.now)]
              && phase == if confirmed then Sweeping else Answered(ServerError))
  {
  }

  /** The second statement takes over an event that has been processing for more than five
      minutes, never one that is processed or claimed more recently. */
  lemma ReclaimExact(s: State, d: nat, taken: bool, confirmed: bool, t: State)
    requires d in s.deliveries && Step(s, d, Reclaim(taken, confirmed), t)
    ensures var x, phase := s.deliveries[d], t.deliveries[d].phase;
        && x.phase.Reclaiming?
        && (x.event in s.rows && s.rows[x.event].status == Processing && x.now - s.rows[x.event].at > 300 ==> taken)
        && (taken ==>
              && x.event in s.rows && s.rows[x.event].status == Processing && x.now - s.rows[x.event].at >= 300
              && t.rows == s.rows[x.event := Row(Processing, x.token, x.now)]
              && phase == if confirmed then Sweeping else Answered(ServerError))
        && (!taken ==> t.rows == s.rows && phase == Reading(x.phase.attempt))
  {
  }

  /** At exactly five minutes both outcomes are possible: the two ledgers differ there. */
  lemma BoundaryOpen(s: State, d: nat, taken: bool)
    requires d in s.deliveries && s.deliveries[d].phase.Reclaiming? && s.deliveries[d].event in s.rows
    requires var row := s.rows[s.deliveries[d].event]; row.status == Processing && s.deliveries[d].now - row.at == 300
    ensures exists t :: Step(s, d, Reclaim(taken, true), t)
  {
    var x := s.deliveries[d];
    var t := if taken
      then s.(
        rows := Claim(s.rows, x.event, x.token, x.now), deliveries := At(s, d, AfterClaim(true)),
        reclaims := s.reclaims + multiset{x.event})
      else s.(deliveries := At(s, d, Reading(x.phase.attempt)));
    assert Step(s, d, Reclaim(taken, true), t);
  }

  /** The third statement answers from the row it finds; without one the delivery starts over,
      three times in all, under a new token. */
  lemma ReadExact(s: State, d: nat, t: State)
    requires d in s.deliveries && Step(s, d, Read, t)
    ensures var x, y := s.deliveries[d], t.deliveries[d];
        && x.phase.Reading? && t.rows == s.rows
        && (x.event in s.rows ==>
              y == x.(phase := Answered(if s.rows[x.event].status == Processed then Duplicate else RetryLater)))
        && (x.event !in s.rows ==>
              if x.phase.attempt < 2 then
                y == x.(token := s.nextToken, phase := Inserting(x.phase.attempt + 1))
                && t.nextToken == s.nextToken + 1
              else y == x.(phase := Answered(RetryLater)))
  {
  }

  /** The sweep removes exactly the rows older than thirty days, and moves no other. */
  lemma SweepExact(s: State, d: nat, done: bool, t: State, e: EventId)
    requires d in s.deliveries && Step(s, d, Sweep(done), t)
    ensures e in t.rows <==> e in s.rows && (done ==> s.deliveries[d].now - s.rows[e].at <= 2592000)
    ensures e in t.rows ==> t.rows[e] == s.rows[e]
    ensures t.deliveries[d].phase == Claimed
  {
  }

  /** Completion marks the event processed, for the holder of its claim only, and answers what
      was settled. */
  lemma CompleteExact(s: State, d: nat, landed: bool, t: State)
    requires d in s.deliveries && Step(s, d, Complete(landed), t)
    ensures var x := s.deliveries[d];
        && x.phase.Settled? && t.deliveries[d].phase == Answered(x.phase.answer)
        && t.rows ==
           if landed && x.event in s.rows && s.rows[x.event].token == x.token
           then s.rows[x.event := Row(Processed, x.token, x.now)] else s.rows
  {
  }

  /** The rollback deletes the row, for the holder of its claim only, and asks for a retry. */
  lemma ReleaseExact(s: State, d: nat, landed: bool, t: State)
    requires d in s.deliveries && Step(s, d, Release(landed), t)
    ensures var x := s.deliveries[d];
        && x.phase == FailedTransiently && t.deliveries[d].phase == Answered(ServerError)
        && t.rows ==
           if landed && x.event in s.rows && s.rows[x.event].token == x.token
           then map e | e in s.rows && e != x.event :: s.rows[e] else s.rows
  {
  }

  // ----- which deliveries are retried -----

  ghost predicate Deletes(eventType: string, userId: string) {
    eventType == "user.deleted" && Trim(userId) != ""
  }

  ghost predicate Renames(eventType: string, userId: string, email: string) {
    eventType in {"user.updated", "user.email_changed"} && Trim(userId) != "" && Trim(email) != ""
  }

  /** Main result: exactly how a claimed delivery goes on. It fails transiently, and so releases
      its claim, when deactivating the user fails for any reason but an unknown user, or
      changing the address fails for any reason but an unknown user or a conflict. It is
      rejected for good on an incomplete payload or a conflict, and accepted otherwise; it
      counts as applied exactly when the service succeeded. */
  lemma ApplyExact(
      s: State, d: nat, eventType: string, userId: string, email: string, result: ServiceResult, t: State)
    requires d in s.deliveries && Step(s, d, Apply(eventType, userId, email, result), t)
    ensures var e, phase := s.deliveries[d].event, t.deliveries[d].phase;
        && s.deliveries[d].phase == Claimed && t.rows == s.rows
        && (phase == FailedTransiently <==>
              || (Deletes(eventType, userId) && result in {ServiceError, ServiceConflict})
              || (Renames(eventType, userId, email) && result == ServiceError))
        && (phase == Settled(Rejected) <==>
              || (eventType == "user.deleted" && !Deletes(eventType, userId))
              || (eventType in {"user.updated", "user.email_changed"}
                  && (!Renames(eventType, userId, email) || result == ServiceConflict)))
        && (phase == Settled(Accepted) <==>
              || eventType !in {"user.deleted", "user.updated", "user.email_changed"}
              || ((Deletes(eventType, userId) || Renames(eventType, userId, email))
                  && result in {ServiceOk, ServiceNotFound}))
        && t.applied[e] == s.applied[e] +
             (if (Deletes(eventType, userId) || Renames(eventType, userId, email)) && result == ServiceOk then 1 else 0)
        && (e in t.settled <==> e in s.settled || phase != FailedTransiently)
  {
    hide Trim;
  }

  lemma CompleteKeeps(s: State, d: nat, landed: bool, t: State)
    requires Inv(s) && d in s.deliveries && Completes(s, d, landed, t)
    ensures Inv(t)
  {
    ProcessedSettled(s);
    EarnedPhase(s, d);
    CompletedAt(s, d);
    CompleteDone(s, d, landed, t);
    hide AnswersEarned, TokensFenced, HoldersDone;
    FencesKept(s, d, t);
    EarnedKept(s, d, t);
  }

  lemma CompleteDone(s: State, d: nat, landed: bool, t: State)
    requires Inv(s) && d in s.deliveries && Completes(s, d, landed, t)
    ensures HoldersDone(t)
  {
    hide AnswersEarned;
    forall c, e | c in t.deliveries && Holds(t.rows, e, t.deliveries[c].token) && t.rows[e].status == Processed
      ensures t.deliveries[c].phase.Answered?
    {
      if c != d {
        assert Holds(s.rows, e, s.deliveries[c].token);
      }
    }
  }

  lemma ReleaseKeeps(s: State, d: nat, landed: bool, t: State)
    requires Inv(s) && d in s.deliveries && Releases(s, d, landed, t)
    ensures Inv(t)
  {
    ProcessedSettled(s);
    hide AnswersEarned, TokensFenced, HoldersDone;
    FencesKept(s, d, t);
    EarnedKept(s, d, t);
    DoneKept(s, d, t);
  }

  /** Failing to begin, and crashing. */
  lemma StopKeeps(s: State, d: nat, phase: Phase, t: State)
    requires Inv(s) && d in s.deliveries && t == s.(deliveries := At(s, d, phase))
    requires !s.deliveries[d].phase.Answered? && (phase == Answered(ServerError) || phase == Crashed)
    ensures Inv(t)
  {
    ProcessedSettled(s);
    NotDoneYet(s, d);
    hide AnswersEarned, TokensFenced, HoldersDone;
    FencesKept(s, d, t);
    EarnedKept(s, d, t);
    DoneKept(s, d, t);
  }

  lemma StepKeeps(s: State, d: nat, a: Action, t: State)
    requires Inv(s) && Step(s, d, a, t)
    ensures Inv(t)
  {
    hide Inv, EffectOf, Arrives, Inserts, Reclaims, Reads, Sweeps, Applies, Completes, Releases;
    match a
    case Arrive(e, now) => ArriveKeeps(s, d, e, now, t);
    case Insert(confirmed) => InsertKeeps(s, d, confirmed, t);
    case Reclaim(taken, confirmed) => ReclaimKeeps(s, d, taken, confirmed, t);
    case Read => ReadKeeps(s, d, t);
    case BeginFails => StopKeeps(s, d, Answered(ServerError), t);
    case Sweep(done) => SweepKeeps(s, d, done, t);
    case Apply(eventType, userId, email, result) =>
      EffectAnswers(eventType, userId, email, result);
      ApplyKeeps(s, d, EffectOf(eventType, userId, email, result), t);
    case Complete(landed) => CompleteKeeps(s, d, landed, t);
    case Release(landed) => ReleaseKeeps(s, d, landed, t);
    case Crash => StopKeeps(s, d, Crashed, t);
  }

  lemma {:induction false} RunInv(states: seq<State>, steps: seq<(nat, Action)>, i: nat)
    requires Run(states, steps) && i <= |steps|
    ensures Inv(states[i])
  {
    hide Step, TokensFenced, AnswersEarned, HoldersDone;
    if i == 0 {
      StartInv(states[0]);
    } else {
      RunInv(states, steps, i - 1);
      StepKeeps(states[i - 1], steps[i - 1].0, steps[i - 1].1, states[i]);
    }
  }

  lemma StartInv(s: State)
    requires Initial(s)
    ensures Inv(s)
  {
  }

  /** Main result: a success answer, in particular "duplicate", is only ever given for an
      event whose effect was applied or that reached a final outcome. */
  lemma AcknowledgedIsSettled(states: seq<State>, steps: seq<(nat, Action)>, i: nat, d: nat)
    requires Run(states, steps) && i <= |steps| && d in states[i].deliveries
    requires states[i].deliveries[d].phase.Answered?
    requires states[i].deliveries[d].phase.answer in {Duplicate, Accepted, Rejected}
    ensures states[i].deliveries[d].event in states[i].settled
  {
    RunInv(states, steps, i);
  }

  /** Main result: a processed row is never touched again, except by the retention sweep
      of a claim whose clock is more than 30 days past the row. */
  lemma ProcessedStays(states: seq<State>, steps: seq<(nat, Action)>, i: nat, e: EventId)
    requires Run(states, steps) && i < |steps|
    requires e in states[i].rows && states[i].rows[e].status == Processed
    ensures
      || (e in states[i + 1].rows && states[i + 1].rows[e] == states[i].rows[e])
      || (steps[i].1 == Sweep(true) && steps[i].0 in states[i].deliveries
          && Expired(states[i].rows[e], states[i].deliveries[steps[i].0].now))
  {
    RunInv(states, steps, i);
    assert Step(states[i], steps[i].0, steps[i].1, states[i + 1]);
  }

  // What each statement may change in the rows.

  ghost predicate RowsElsewhere(s: State, t: State, e: EventId) {
    forall f :: f != e ==> (f in s.rows <==> f in t.rows) && (f in s.rows ==> t.rows[f] == s.rows[f])
  }

  lemma ArriveMoves(s: State, d: nat, e: EventId, now: int, t: State)
    requires Arrives(s, d, e, now, t)
    ensures t.rows == s.rows
  {
  }

  lemma InsertMoves(s: State, d: nat, confirmed: bool, t: State)
    requires d in s.deliveries && Inserts(s, d, confirmed, t)
    ensures RowsElsewhere(s, t, s.deliveries[d].event)
    ensures s.deliveries[d].event in s.rows ==> t.rows == s.rows
  {
  }

  lemma ReclaimMoves(s: State, d: nat, taken: bool, confirmed: bool, t: State)
    requires d in s.deliveries && Reclaims(s, d, taken, confirmed, t)
    ensures var x := s.deliveries[d];
        t.rows == s.rows
        || (RowsElsewhere(s, t, x.event) && x.event in s.rows && MayReclaim(s.rows[x.event], x.now))
  {
  }

  lemma ReadMoves(s: State, d: nat, t: State)
    requires d in s.deliveries && Reads(s, d, t)
    ensures t.rows == s.rows
  {
  }

  lemma SweepMoves(s: State, d: nat, done: bool, t: State)
    requires d in s.deliveries && Sweeps(s, d, done, t)
    ensures forall f :: f in s.rows && !Expired(s.rows[f], s.deliveries[d].now) ==>
      f in t.rows && t.rows[f] == s.rows[f]
  {
  }

  lemma ApplyMoves(s: State, d: nat, effect: Effect, t: State)
    requires d in s.deliveries && Applies(s, d, effect, t)
    ensures t.rows == s.rows
  {
  }

  lemma CompleteMoves(s: State, d: nat, landed: bool, t: State)
    requires d in s.deliveries && Completes(s, d, landed, t)
    ensures var x := s.deliveries[d];
        t.rows == s.rows || (RowsElsewhere(s, t, x.event) && Holds(s.rows, x.event, x.token))
  {
  }

  lemma ReleaseMoves(s: State, d: nat, landed: bool, t: State)
    requires d in s.deliveries && Releases(s, d, landed, t)
    ensures var x := s.deliveries[d];
        t.rows == s.rows || (RowsElsewhere(s, t, x.event) && Holds(s.rows, x.event, x.token))
  {
  }

  /** Main result: a row moves only by a claim of a free or stale event, by the delivery
      that holds its token, or by the retention sweep. */
  lemma OnlyHolderMoves(s: State, d: nat, a: Action, t: State, e: EventId)
    requires Step(s, d, a, t) && e in s.rows
    requires e !in t.rows || t.rows[e] != s.rows[e]
    ensures d in s.deliveries
    ensures
      || (a.Reclaim? && s.deliveries[d].event == e && MayReclaim(s.rows[e], s.deliveries[d].now))
      || ((a.Complete? || a.Release?) && s.deliveries[d].event == e && s.deliveries[d].token == s.rows[e].token)
      || (a.Sweep? && Expired(s.rows[e], s.deliveries[d].now))
  {
    hide Arrives, Inserts, Reclaims, Reads, Sweeps, Applies, Completes, Releases, EffectOf;
    match a
    case Arrive(event, now) => ArriveMoves(s, d, event, now, t);
    case Insert(confirmed) => InsertMoves(s, d, confirmed, t);
    case Reclaim(taken, confirmed) => ReclaimMoves(s, d, taken, confirmed, t);
    case Read => ReadMoves(s, d, t);
    case Sweep(done) => SweepMoves(s, d, done, t);
    case Apply(eventType, userId, email, result) =>
      ApplyMoves(s, d, EffectOf(eventType, userId, email, result), t);
    case Complete(landed) => CompleteMoves(s, d, landed, t);
    case Release(landed) => ReleaseMoves(s, d, landed, t);
    case _ =>
  }

  /** A claim writes the claiming delivery's token on its own event's row; a row that was not
      there comes from an insert. */
  ghost predicate Claims(s: State, d: nat, a: Action, t: State, e: EventId)
    requires e in t.rows
  {
    && d in s.deliveries && s.deliveries[d].event == e && Beginning(s.deliveries[d].phase)
    && t.rows[e].token == s.deliveries[d].token && (e !in s.rows ==> a.Insert?)
  }

  ghost predicate TokenKept(s: State, t: State, e: EventId)
    requires e in t.rows
  {
    e in s.rows && t.rows[e].token == s.rows[e].token
  }

  lemma ClaimOrigin(s: State, d: nat, a: Action, t: State, e: EventId)
    requires Step(s, d, a, t) && (a.Insert? || a.Reclaim? || a.Read? || a.Arrive?) && e in t.rows
    ensures TokenKept(s, t, e) || Claims(s, d, a, t, e)
  {
  }

  lemma FinishOrigin(s: State, d: nat, a: Action, t: State, e: EventId)
    requires Step(s, d, a, t) && !(a.Insert? || a.Reclaim? || a.Read? || a.Arrive?) && e in t.rows
    ensures TokenKept(s, t, e)
  {
    hide Arrives, Inserts, Reclaims, Reads, Sweeps, Applies, Completes, Releases, EffectOf, At;
    match a
    case Sweep(done) => SweepOrigin(s, d, done, t, e);
    case Apply(eventType, userId, email, result) =>
      ApplyMoves(s, d, EffectOf(eventType, userId, email, result), t);
    case Complete(landed) => CompleteOrigin(s, d, landed, t, e);
    case Release(landed) => ReleaseOrigin(s, d, landed, t, e);
    case _ =>
  }

  lemma SweepOrigin(s: State, d: nat, done: bool, t: State, e: EventId)
    requires d in s.deliveries && Sweeps(s, d, done, t) && e in t.rows
    ensures TokenKept(s, t, e)
  {
  }

  lemma CompleteOrigin(s: State, d: nat, landed: bool, t: State, e: EventId)
    requires d in s.deliveries && Completes(s, d, landed, t) && e in t.rows
    ensures TokenKept(s, t, e)
  {
  }

  lemma ReleaseOrigin(s: State, d: nat, landed: bool, t: State, e: EventId)
    requires d in s.deliveries && Releases(s, d, landed, t) && e in t.rows
    ensures TokenKept(s, t, e)
  {
  }

  /** Every token on a row was there before or belongs to the delivery that just claimed it. */
  lemma RowOrigin(s: State, d: nat, a: Action, t: State, e: EventId)
    requires Step(s, d, a, t) && e in t.rows
    ensures TokenKept(s, t, e) || Claims(s, d, a, t, e)
  {
    hide Step, TokenKept, Claims;
    if a.Insert? || a.Reclaim? || a.Read? || a.Arrive? {
      ClaimOrigin(s, d, a, t, e);
    } else {
      FinishOrigin(s, d, a, t, e);
    }
  }

  /** A delivery past its claim, and its token. */
  ghost predicate PastClaim(s: State, d: nat, e: EventId, token: nat) {
    d in s.deliveries && s.deliveries[d].event == e && s.deliveries[d].token == token
    && !Beginning(s.deliveries[d].phase)
  }

  lemma PastStays(s: State, c: nat, a: Action, t: State, d: nat, e: EventId, token: nat)
    requires Step(s, c, a, t) && PastClaim(s, d, e, token)
    ensures PastClaim(t, d, e, token)
  {
    hide Step, PastClaim;
    if a.Insert? || a.Reclaim? || a.Read? || a.Arrive? {
      ClaimStepStays(s, c, a, t, d, e, token);
    } else {
      FinishStepStays(s, c, a, t, d, e, token);
    }
  }

  lemma ClaimStepStays(s: State, c: nat, a: Action, t: State, d: nat, e: EventId, token: nat)
    requires Step(s, c, a, t) && (a.Insert? || a.Reclaim? || a.Read? || a.Arrive?) && PastClaim(s, d, e, token)
    ensures PastClaim(t, d, e, token)
  {
    hide Claim, Stale, MayReclaim;
  }

  /** Past the claim a step changes only the phase of its own delivery. */
  ghost predicate MovesOn(s: State, c: nat, t: State) {
    && c in s.deliveries && c in t.deliveries && !Beginning(t.deliveries[c].phase)
    && t.deliveries == At(s, c, t.deliveries[c].phase)
  }

  lemma SweepMovesOn(s: State, c: nat, done: bool, t: State)
    requires c in s.deliveries && Sweeps(s, c, done, t)
    ensures MovesOn(s, c, t)
  {
  }

  lemma ApplyMovesOn(s: State, c: nat, effect: Effect, t: State)
    requires c in s.deliveries && Applies(s, c, effect, t)
    ensures MovesOn(s, c, t)
  {
  }

  lemma EndMovesOn(s: State, c: nat, a: Action, t: State)
    requires Step(s, c, a, t) && (a.Complete? || a.Release? || a.BeginFails? || a.Crash?)
    ensures MovesOn(s, c, t)
  {
  }

  lemma FinishStepStays(s: State, c: nat, a: Action, t: State, d: nat, e: EventId, token: nat)
    requires Step(s, c, a, t) && !(a.Insert? || a.Reclaim? || a.Read? || a.Arrive?) && PastClaim(s, d, e, token)
    ensures PastClaim(t, d, e, token)
  {
    hide Arrives, Inserts, Reclaims, Reads, Sweeps, Applies, Completes, Releases, EffectOf, Beginning;
    match a
    case Sweep(done) => SweepMovesOn(s, c, done, t);
    case Apply(eventType, userId, email, result) =>
      ApplyMovesOn(s, c, EffectOf(eventType, userId, email, result), t);
    case _ => EndMovesOn(s, c, a, t);
  }

  lemma LostStays(s: State, c: nat, a: Action, t: State, d: nat, e: EventId, token: nat)
    requires TokensApart(s) && Step(s, c, a, t) && PastClaim(s, d, e, token) && !Holds(s.rows, e, token)
    ensures PastClaim(t, d, e, token) && !Holds(t.rows, e, token)
  {
    hide Step;
    PastStays(s, c, a, t, d, e, token);
    if e in t.rows {
      RowOrigin(s, c, a, t, e);
    }
  }

  lemma InvApart(s: State)
    requires Inv(s)
    ensures TokensApart(s)
  {
  }

  /** Main result: a delivery that lost its claim never gets it back: in every run, whatever it
      still does to complete or to roll back leaves the rows alone. */
  lemma {:induction false} SupersededStaysHarmless(
      states: seq<State>, steps: seq<(nat, Action)>, i: nat, k: nat, d: nat, e: EventId, token: nat)
    requires Run(states, steps) && i <= k <= |steps|
    requires PastClaim(states[i], d, e, token) && !Holds(states[i].rows, e, token)
    ensures PastClaim(states[k], d, e, token) && !Holds(states[k].rows, e, token)
    ensures k < |steps| && steps[k].0 == d && (steps[k].1.Complete? || steps[k].1.Release?) ==>
        states[k + 1].rows == states[k].rows
    decreases k
  {
    hide Inv, TokensApart, Holds;
    if i < k {
      SupersededStaysHarmless(states, steps, i, k - 1, d, e, token);
      RunInv(states, steps, k - 1);
      InvApart(states[k - 1]);
      assert Step(states[k - 1], steps[k - 1].0, steps[k - 1].1, states[k]);
      hide Step;
      LostStays(states[k - 1], steps[k - 1].0, steps[k - 1].1, states[k], d, e, token);
    }
    if k < |steps| && steps[k].0 == d && (steps[k].1.Complete? || steps[k].1.Release?) {
      assert Step(states[k], d, steps[k].1, states[k + 1]);
      HarmlessStep(states[k], d, steps[k].1, states[k + 1], e, token);
    }
  }

  lemma HarmlessStep(s: State, d: nat, a: Action, t: State, e: EventId, token: nat)
    requires Step(s, d, a, t) && (a.Complete? || a.Release?)
    requires PastClaim(s, d, e, token) && !Holds(s.rows, e, token)
    ensures t.rows == s.rows
  {
  }

  /** Step `k` is an insert for this event. */
  ghost predicate InsertsFor(states: seq<State>, steps: seq<(nat, Action)>, k: nat, e: EventId)
    requires k < |steps| && |states| == |steps| + 1
  {
    steps[k].1.Insert? && steps[k].0 in states[k].deliveries && states[k].deliveries[steps[k].0].event == e
  }

  /** A landed release by the delivery that holds the event's claim. */
  ghost predicate ReleasesFor(states: seq<State>, steps: seq<(nat, Action)>, i: nat, e: EventId)
    requires i < |steps| && |states| == |steps| + 1
  {
    && steps[i].1 == Release(true) && steps[i].0 in states[i].deliveries
    && states[i].deliveries[steps[i].0].event == e
    && Holds(states[i].rows, e, states[i].deliveries[steps[i].0].token)
  }

  lemma ReleaseFrees(s: State, d: nat, t: State)
    requires Step(s, d, Release(true), t) && d in s.deliveries
    requires Holds(s.rows, s.deliveries[d].event, s.deliveries[d].token)
    ensures s.deliveries[d].event !in t.rows
  {
  }

  lemma {:induction false} FreeUntilInsert(
      states: seq<State>, steps: seq<(nat, Action)>, i: nat, k: nat, e: EventId)
    requires Run(states, steps) && i < k <= |steps| && ReleasesFor(states, steps, i, e)
    requires forall j :: i < j < k ==> !InsertsFor(states, steps, j, e)
    ensures e !in states[k].rows
    decreases k
  {
    hide Holds;
    if k == i + 1 {
      assert Step(states[i], steps[i].0, steps[i].1, states[k]);
      ReleaseFrees(states[i], steps[i].0, states[k]);
    } else {
      FreeUntilInsert(states, steps, i, k - 1, e);
      assert Step(states[k - 1], steps[k - 1].0, steps[k - 1].1, states[k]);
      hide Step;
      assert !InsertsFor(states, steps, k - 1, e);
      if e in states[k].rows {
        RowOrigin(states[k - 1], steps[k - 1].0, steps[k - 1].1, states[k], e);
      }
    }
  }

  lemma InsertClaims(s: State, d: nat, confirmed: bool, t: State)
    requires Step(s, d, Insert(confirmed), t) && d in s.deliveries && s.deliveries[d].event !in s.rows
    ensures Holds(t.rows, s.deliveries[d].event, s.deliveries[d].token)
    ensures d in t.deliveries && t.deliveries[d].phase == AfterClaim(confirmed)
  {
  }

  /** Main result: when the rollback of a transient failure lands, the event has no row until
      its next insert, and the first insert of the event, by whichever delivery, claims it. */
  lemma ReleasedIsClaimable(states: seq<State>, steps: seq<(nat, Action)>, i: nat, k: nat, e: EventId)
    requires Run(states, steps) && i < k <= |steps| && ReleasesFor(states, steps, i, e)
    requires forall j :: i < j < k ==> !InsertsFor(states, steps, j, e)
    ensures e !in states[k].rows
    ensures k < |steps| && InsertsFor(states, steps, k, e) ==>
        var d := steps[k].0;
        && Holds(states[k + 1].rows, e, states[k].deliveries[d].token)
        && d in states[k + 1].deliveries && states[k + 1].deliveries[d].phase == AfterClaim(steps[k].1.confirmed)
  {
    FreeUntilInsert(states, steps, i, k, e);
    if k < |steps| && InsertsFor(states, steps, k, e) {
      assert Step(states[k], steps[k].0, steps[k].1, states[k + 1]);
      hide Step, Holds;
      InsertClaims(states[k], steps[k].0, steps[k].1.confirmed, states[k + 1]);
    }
  }

  // ----- how often an effect is applied -----

  predicate Owes(p: Phase) {
    p.Sweeping? || p.Claimed? || p.FailedTransiently?
  }

  /** Deliveries whose claim has neither applied nor finished. */
  ghost function Owing(s: State, e: EventId): set<nat> {
    set d | d in s.deliveries && s.deliveries[d].event == e && Owes(s.deliveries[d].phase)
  }

  /** Every application and every release uses up its own claim; every insert follows the
      loss of the previous row. */
  ghost predicate Tallied(s: State, e: EventId) {
    && s.applied[e] + s.releases[e] + |Owing(s, e)| <= s.inserts[e] + s.reclaims[e]
    && s.inserts[e] == s.releases[e] + s.swept[e] + (if e in s.rows then 1 else 0)
  }

  lemma CountMoves(a: set<nat>, b: set<nat>, d: nat)
    requires a - {d} == b - {d}
    ensures |b| - (if d in b then 1 else 0) == |a| - (if d in a then 1 else 0)
  {
    var rest := a - {d};
    assert a == if d in a then rest + {d} else rest;
    assert b == if d in b then rest + {d} else rest;
  }

  /** One delivery changes phase; nobody else's claim does. */
  lemma OwingMoves(s: State, t: State, e: EventId, d: nat)
    requires OnlyMoves(s, d, t)
    ensures |Owing(t, e)| - (if d in Owing(t, e) then 1 else 0) == |Owing(s, e)| - (if d in Owing(s, e) then 1 else 0)
  {
    forall c | c != d
      ensures c in Owing(s, e) <==> c in Owing(t, e)
    {
      assert c in s.deliveries <==> c in t.deliveries;
    }
    assert Owing(s, e) - {d} == Owing(t, e) - {d};
    CountMoves(Owing(s, e), Owing(t, e), d);
  }

  lemma OwingMember(s: State, e: EventId, d: nat)
    ensures d in Owing(s, e) <==> d in s.deliveries && s.deliveries[d].event == e && Owes(s.deliveries[d].phase)
  {
  }

  lemma SweptCount(rows: map<EventId, Row>, now: int, e: EventId)
    ensures multiset(rows.Keys - Swept(rows, now).Keys)[e] == if e in rows && e !in Swept(rows, now) then 1 else 0
    ensures e in Swept(rows, now) ==> e in rows
  {
  }

  /** The books balance when a delivery's debt and the tallies move together. */
  lemma TalliesMove(s: State, d: nat, t: State, e: EventId)
    requires Tallied(s, e) && OnlyMoves(s, d, t)
    requires t.applied[e] + t.releases[e] + (if d in Owing(t, e) then 1 else 0) + s.inserts[e] + s.reclaims[e]
        <= s.applied[e] + s.releases[e] + (if d in Owing(s, e) then 1 else 0) + t.inserts[e] + t.reclaims[e]
    requires t.inserts[e] + s.releases[e] + s.swept[e] + (if e in s.rows then 1 else 0)
        == s.inserts[e] + t.releases[e] + t.swept[e] + (if e in t.rows then 1 else 0)
    ensures Tallied(t, e)
  {
    OwingMoves(s, t, e, d);
    hide Owing;
  }

  lemma ClaimTallies(s: State, d: nat, a: Action, t: State, e: EventId)
    requires Tallied(s, e) && Step(s, d, a, t) && (a.Insert? || a.Reclaim?)
    ensures Tallied(t, e)
  {
    OwingMember(s, e, d);
    OwingMember(t, e, d);
    hide Owing, Tallied;
    TalliesMove(s, d, t, e);
  }

  lemma WaitTallies(s: State, d: nat, a: Action, t: State, e: EventId)
    requires Tallied(s, e) && Step(s, d, a, t) && (a.Read? || a.Arrive?)
    ensures Tallied(t, e)
  {
    OwingMember(s, e, d);
    OwingMember(t, e, d);
    hide Owing, Tallied;
    TalliesMove(s, d, t, e);
  }

  lemma FinishTallies(s: State, d: nat, a: Action, t: State, e: EventId)
    requires Tallied(s, e) && Step(s, d, a, t) && (a.Complete? || a.Release? || a.BeginFails? || a.Crash?)
    ensures Tallied(t, e)
  {
    OwingMember(s, e, d);
    OwingMember(t, e, d);
    hide Owing, Tallied;
    TalliesMove(s, d, t, e);
  }

  lemma ApplyTallies(s: State, d: nat, effect: Effect, t: State, e: EventId)
    requires Tallied(s, e) && d in s.deliveries && Applies(s, d, effect, t)
    ensures Tallied(t, e)
  {
    OwingMember(s, e, d);
    OwingMember(t, e, d);
    hide Owing, Tallied;
    TalliesMove(s, d, t, e);
  }

  lemma SweepTallies(s: State, d: nat, done: bool, t: State, e: EventId)
    requires Tallied(s, e) && d in s.deliveries && Sweeps(s, d, done, t)
    ensures Tallied(t, e)
  {
    OwingMember(s, e, d);
    OwingMember(t, e, d);
    SweptCount(s.rows, s.deliveries[d].now, e);
    assert multiset(s.rows.Keys - s.rows.Keys)[e] == 0;
    hide Owing, Tallied, Swept;
    TalliesMove(s, d, t, e);
  }

  lemma StepTallies(s: State, d: nat, a: Action, t: State, e: EventId)
    requires Tallied(s, e) && Step(s, d, a, t)
    ensures Tallied(t, e)
  {
    hide Tallied, EffectOf, Arrives, Inserts, Reclaims, Reads, Sweeps, Applies, Completes, Releases;
    match a
    case Sweep(done) => SweepTallies(s, d, done, t, e);
    case Apply(eventType, userId, email, result) =>
      ApplyTallies(s, d, EffectOf(eventType, userId, email, result), t, e);
    case Complete(_) => FinishTallies(s, d, a, t, e);
    case Release(_) => FinishTallies(s, d, a, t, e);
    case BeginFails => FinishTallies(s, d, a, t, e);
    case Crash => FinishTallies(s, d, a, t, e);
    case Insert(_) => ClaimTallies(s, d, a, t, e);
    case Reclaim(_, _) => ClaimTallies(s, d, a, t, e);
    case _ => WaitTallies(s, d, a, t, e);
  }

  lemma {:induction false} RunTallies(states: seq<State>, steps: seq<(nat, Action)>, i: nat, e: EventId)
    requires Run(states, steps) && i <= |steps|
    ensures Tallied(states[i], e)
  {
    hide Step;
    if i == 0 {
      assert Owing(states[0], e) == {};
    } else {
      RunTallies(states, steps, i - 1, e);
      StepTallies(states[i - 1], steps[i - 1].0, steps[i - 1].1, states[i], e);
    }
  }

  /** Main result: in every run an event's effect is applied at most once more than its
      row was taken over as stale or swept away. Without either, at most once. */
  lemma AppliedAtMostOnce(states: seq<State>, steps: seq<(nat, Action)>, i: nat, e: EventId)
    requires Run(states, steps) && i <= |steps|
    ensures states[i].applied[e] <= 1 + states[i].reclaims[e] + states[i].swept[e]
  {
    RunTallies(states, steps, i, e);
  }

  // ----- the bound is attained -----

  /** Steps without a starting point. */
  ghost predicate Linked(states: seq<State>, steps: seq<(nat, Action)>) {
    && |states| == |steps| + 1
    && forall i :: 0 <= i < |steps| ==> Step(states[i], steps[i].0, steps[i].1, states[i + 1])
  }

  lemma LinkedAppend(
      states: seq<State>, steps: seq<(nat, Action)>, more: seq<State>, moreSteps: seq<(nat, Action)>)
    requires Linked(states, steps) && Linked(more, moreSteps) && states[|steps|] == more[0]
    ensures Linked(states + more[1..], steps + moreSteps)
  {
    hide Step;
    var all, allSteps := states + more[1..], steps + moreSteps;
    forall i | 0 <= i < |allSteps|
      ensures Step(all[i], allSteps[i].0, allSteps[i].1, all[i + 1])
    {
      if i >= |steps| {
        var j := i - |steps|;
        assert all[i] == more[j] && all[i + 1] == more[j + 1] && allSteps[i] == moreSteps[j];
      }
    }
  }

  lemma RunLinked(states: seq<State>, steps: seq<(nat, Action)>)
    ensures Run(states, steps) <==> Linked(states, steps) && Initial(states[0])
  {
    hide Step;
  }

  /** The event's row is under a claim older than five minutes before `now`. */
  ghost predicate StaleAt(s: State, e: EventId, now: int) {
    e in s.rows && Stale(s.rows[e], now)
  }

  /** A new delivery takes over a stale claim: it arrives, its insert conflicts, and the
      reclaim must take. */
  lemma TakeOver(s: State, d: nat, e: EventId, now: int) returns (states: seq<State>, steps: seq<(nat, Action)>)
    requires d !in s.deliveries && StaleAt(s, e, now)
    ensures Linked(states, steps) && |steps| == 3 && states[0] == s
    ensures states[3] == s.(
      rows := Claim(s.rows, e, s.nextToken, now), nextToken := s.nextToken + 1,
      deliveries := s.deliveries[d := Delivery(e, now, s.nextToken, Sweeping)],
      reclaims := s.reclaims + multiset{e})
  {
    var x := Delivery(e, now, s.nextToken, Inserting(0));
    var s1 := s.(deliveries := s.deliveries[d := x], nextToken := s.nextToken + 1);
    var s2 := s1.(deliveries := s.deliveries[d := x.(phase := Reclaiming(0))]);
    var s3 := s2.(
      rows := Claim(s.rows, e, s.nextToken, now), deliveries := s.deliveries[d := x.(phase := Sweeping)],
      reclaims := s.reclaims + multiset{e});
    assert s2.deliveries == At(s1, d, Reclaiming(0)) && s3.deliveries == At(s2, d, Sweeping);
    hide At;
    assert Step(s, d, Arrive(e, now), s1);
    assert Step(s1, d, Insert(true), s2);
    assert Step(s2, d, Reclaim(true, true), s3);
    states, steps := [s, s1, s2, s3], [(d, Arrive(e, now)), (d, Insert(true)), (d, Reclaim(true, true))];
  }

  /** Main result: no event is wedged. From every reachable state whose row is under a claim
      more than five minutes old, a new delivery alone takes the event over. */
  lemma StaleIsTakenOver(states: seq<State>, steps: seq<(nat, Action)>, d: nat, e: EventId, now: int)
    returns (longer: seq<State>, longerSteps: seq<(nat, Action)>)
    requires Run(states, steps) && d !in states[|steps|].deliveries && StaleAt(states[|steps|], e, now)
    ensures Run(longer, longerSteps) && |longerSteps| == |steps| + 3
    ensures var end := longer[|longerSteps|];
        d in end.deliveries && end.deliveries[d].phase == Sweeping && Holds(end.rows, e, end.deliveries[d].token)
  {
    hide Step, StaleAt;
    RunLinked(states, steps);
    var more, moreSteps := TakeOver(states[|steps|], d, e, now);
    LinkedAppend(states, steps, more, moreSteps);
    longer, longerSteps := states + more[1..], steps + moreSteps;
    RunLinked(longer, longerSteps);
  }

  /** A claimed delivery skips the sweep, applies its effect and crashes. */
  lemma ApplyAndCrash(s: State, d: nat, userId: string) returns (states: seq<State>, steps: seq<(nat, Action)>)
    requires d in s.deliveries && s.deliveries[d].phase == Sweeping && Trim(userId) != ""
    ensures Linked(states, steps) && |steps| == 3 && states[0] == s
    ensures var e := s.deliveries[d].event;
        states[3] == s.(
          deliveries := s.deliveries[d := s.deliveries[d].(phase := Crashed)],
          settled := s.settled + {e}, applied := s.applied + multiset{e}, swept := s.swept + multiset{})
  {
    var x := s.deliveries[d];
    var action := Apply("user.deleted", userId, "", ServiceOk);
    assert EffectOf("user.deleted", userId, "", ServiceOk) == Applied(Accepted);
    hide EffectOf, Trim;
    assert multiset(s.rows.Keys - s.rows.Keys) == multiset{};
    var s1 := s.(deliveries := At(s, d, Claimed), swept := s.swept + multiset{});
    var s2 := s1.(
      deliveries := At(s1, d, Settled(Accepted)), settled := s.settled + {x.event},
      applied := s.applied + multiset{x.event});
    var s3 := s2.(deliveries := At(s2, d, Crashed));
    assert Step(s, d, Sweep(false), s1);
    assert Step(s1, d, action, s2);
    assert Step(s2, d, Crash, s3);
    assert s3.deliveries == s.deliveries[d := x.(phase := Crashed)];
    states, steps := [s, s1, s2, s3], [(d, Sweep(false)), (d, action), (d, Crash)];
  }

  /** The first delivery claims a free event. */
  lemma FirstClaim(s: State, e: EventId) returns (states: seq<State>, steps: seq<(nat, Action)>)
    requires Initial(s)
    ensures Linked(states, steps) && |steps| == 2 && states[0] == s
    ensures states[2] == s.(
      rows := Claim(s.rows, e, s.nextToken, 0), nextToken := s.nextToken + 1,
      deliveries := s.deliveries[0 := Delivery(e, 0, s.nextToken, Sweeping)], inserts := s.inserts + multiset{e})
  {
    var x := Delivery(e, 0, s.nextToken, Inserting(0));
    var s1 := s.(deliveries := s.deliveries[0 := x], nextToken := s.nextToken + 1);
    var s2 := s1.(
      rows := Claim(s.rows, e, s.nextToken, 0), deliveries := s.deliveries[0 := x.(phase := Sweeping)],
      inserts := s.inserts + multiset{e});
    assert s2.deliveries == At(s1, 0, Sweeping);
    hide At;
    assert Step(s, 0, Arrive(e, 0), s1);
    assert Step(s1, 0, Insert(true), s2);
    states, steps := [s, s1, s2], [(0, Arrive(e, 0)), (0, Insert(true))];
  }

  /** After `n` takeovers: `n + 1` applications, the row still processing. */
  ghost predicate AfterRounds(s: State, e: EventId, n: nat) {
    && s.applied[e] == n + 1 && s.reclaims[e] == n && s.swept[e] == 0
    && e in s.rows && s.rows[e].status == Processing && s.rows[e].at == 1000 * n
    && forall d :: d in s.deliveries ==> d <= n
  }

  /** Main result: the bound is attained for every number of takeovers. In particular an
      effect can be applied twice. */
  lemma {:induction false} BoundAttained(e: EventId, userId: string, n: nat)
    returns (states: seq<State>, steps: seq<(nat, Action)>)
    requires Trim(userId) != ""
    ensures Run(states, steps) && AfterRounds(states[|steps|], e, n)
    ensures states[|steps|].applied[e] == 1 + states[|steps|].reclaims[e] + states[|steps|].swept[e]
  {
    hide Step, Trim;
    var claim, claimSteps;
    if n == 0 {
      var s := State(map[], map[], 0, {}, multiset{}, multiset{}, multiset{}, multiset{}, multiset{});
      claim, claimSteps := FirstClaim(s, e);
    } else {
      var before, beforeSteps := BoundAttained(e, userId, n - 1);
      RunLinked(before, beforeSteps);
      var more, moreSteps := TakeOver(before[|beforeSteps|], n, e, 1000 * n);
      LinkedAppend(before, beforeSteps, more, moreSteps);
      claim, claimSteps := before + more[1..], beforeSteps + moreSteps;
    }
    var s := claim[|claimSteps|];
    var rest, restSteps := ApplyAndCrash(s, n, userId);
    LinkedAppend(claim, claimSteps, rest, restSteps);
    states, steps := claim + rest[1..], claimSteps + restSteps;
    assert states[|steps|] == rest[3];
    RunLinked(states, steps);
  }
}
