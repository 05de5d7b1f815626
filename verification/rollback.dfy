/** Rolling back to an earlier version. */
module Rollback {
  import opened Text
  import opened Lists
  import opened Policy
  import opened Compile
  import opened Compat
  import opened Resolver
  import opened Engine
  import opened Rollouts
  import opened Runtimes
  import Meaning
  import Walk

  datatype RollbackResponse =
    | BadRequest | NotFound | ServerError
    | RolledBack(
        previousEffective: Option<int>, previousActive: Option<int>, previousCandidate: Option<int>, active: int)

  function EffectiveVersion(rollout: Rollout): Option<int> {
    if rollout.mode == ENFORCE && rollout.candidate.Some? && Validated(rollout, rollout.candidate.value)
    then rollout.candidate
    else rollout.active
  }

  /** The rollout a rollback writes: the target alone, for everyone. */
  function RolledBackTo(setId: string, previous: Rollout, target: int): Rollout {
    Rollout(setId, Some(target), None, DISABLED, [], [], 100, CanonicalVersions(previous.validated + [target]))
  }

  function RequestedSet(policySetId: string): string {
    if Trim(policySetId) == "" then DEFAULT_SET else Trim(policySetId)
  }

  function UpsertFailure(st: StoreState, r: Rollout): RollbackResponse {
    if WriteRollout in st.failing || CleanRollout(r).None? then ServerError else NotFound
  }

  ghost function RollbackOutcome(st: StoreState, decode: string -> Option<Bundle>, policySetId: string, target: int)
    : (RollbackResponse, StoreState)
  {
    var setId := RequestedSet(policySetId);
    if target <= 0 then (BadRequest, st)
    else match GetVersion(st, setId, target)
      case Missing => (NotFound, st)
      case Unavailable => (ServerError, st)
      case Found(v) =>
        if !AcceptsText(v.bundle, decode) then (BadRequest, st)
        else match GetRollout(st, setId)
          case Unavailable => (ServerError, st)
          case fetched =>
            var previous := if fetched.Found? then fetched.value else NoRollout(setId);
            var next := RolledBackTo(setId, previous, target);
            if !CanUpsert(st, next) then (UpsertFailure(st, next), st)
            else
              (RolledBack(EffectiveVersion(previous), previous.active, previous.candidate, target), Upserted(st, next))
  }

  class PolicyStore {
    var state: StoreState

    constructor (state: StoreState)
      ensures this.state == state
    {
      this.state := state;
    }

    method UpsertRollout(r: Rollout) returns (stored: bool)
      modifies this
      ensures stored <==> CanUpsert(old(state), r)
      ensures state == if stored then Upserted(old(state), r) else old(state)
    {
      stored := CanUpsert(state, r);
      if stored {
        var clean := CleanRollout(r).value;
        state := state.(rollouts := state.rollouts[clean.policySetId := clean]);
      }
    }
  }

  method RollbackPolicy(store: PolicyStore, decode: string -> Option<Bundle>, policySetId: string, target: int)
    returns (response: RollbackResponse)
    modifies store
    ensures (response, store.state) == RollbackOutcome(old(store.state), decode, policySetId, target)
  {
    hide AcceptsText, CleanRollout, CanUpsert, Upserted, ValidSetId, Norm, Trim, CanonicalVersions, GetRollout;
    if target <= 0 {
      return BadRequest;
    }
    var setId := RequestedSet(policySetId);
    var fetched := GetVersion(store.state, setId, target);
    if fetched.Missing? {
      return NotFound;
    }
    if fetched.Unavailable? {
      return ServerError;
    }
    var compiled := CompileText(fetched.value.bundle, decode);
    if compiled.Err? {
      return BadRequest;
    }
    var stored := GetRollout(store.state, setId);
    if stored.Unavailable? {
      return ServerError;
    }
    var rollout := if stored.Missing? then NoRollout(setId) else stored.value;
    var validated := AppendValidatedVersion(rollout.validated, target);
    var next := Rollout(setId, Some(target), None, DISABLED, [], [], 100, validated);
    var done := store.UpsertRollout(next);
    if !done {
      return UpsertFailure(store.state, next);
    }
    return RolledBack(EffectiveVersion(rollout), rollout.active, rollout.candidate, target);
  }

  // ----- the write a rollback ends with -----

  /** The write of a rollback that saw this row earlier, when handlers overlap. The version it
      checked is immutable, so it does not matter when. */
  ghost predicate RollbackLands(
      st: StoreState, decode: string -> Option<Bundle>, policySetId: string, target: int, seen: Rollout,
      after: StoreState)
  {
    var setId := RequestedSet(policySetId);
    && target > 0 && ValidSetId(Norm(setId)) && (Norm(setId), target) in st.versions
    && AcceptsText(st.versions[(Norm(setId), target)].bundle, decode)
    && CanUpsert(st, RolledBackTo(setId, seen, target)) && after == Upserted(st, RolledBackTo(setId, seen, target))
  }

  ghost function RowSeen(st: StoreState, policySetId: string): Rollout {
    var setId := RequestedSet(policySetId);
    var fetched := GetRollout(st, setId);
    if fetched.Found? then fetched.value else NoRollout(setId)
  }

  /** A handler that nothing overlaps lands with the row it finds, or changes nothing. */
  lemma AloneLands(st: StoreState, decode: string -> Option<Bundle>, policySetId: string, target: int)
    ensures var (response, after) := RollbackOutcome(st, decode, policySetId, target);
        if response.RolledBack? then
          RollbackLands(st, decode, policySetId, target, RowSeen(st, policySetId), after)
        else after == st
  {
    hide AcceptsText, CanUpsert, Upserted, RolledBackTo, EffectiveVersion, RequestedSet, Norm, GetRollout, ValidSetId;
  }

  /** What such a write leaves behind. */
  lemma LandingLeaves(
      st: StoreState, decode: string -> Option<Bundle>, policySetId: string, target: int, seen: Rollout,
      after: StoreState)
    returns (row: Rollout)
    requires RollbackLands(st, decode, policySetId, target, seen, after)
    ensures after == st.(rollouts := st.rollouts[Norm(RequestedSet(policySetId)) := row])
    ensures row == Rollout(
      Norm(RequestedSet(policySetId)), Some(target), None, "disabled", [], [], 100, row.validated)
    ensures forall v :: v in row.validated <==> v == target || (v > 0 && v in seen.validated)
  {
    hide RequestedSet, RolledBackTo, Norm, AcceptsText, ValidSetId, CleanRollout;
    var setId := RequestedSet(policySetId);
    RolledBackClean(setId, seen, target);
    RolledBackNames(Norm(setId), seen, target);
    row := RolledBackTo(Norm(setId), seen, target);
  }

  /** Main result: exactly when such a write keeps every validated version of the row it
      replaces: the row its handler saw earlier already named them. */
  lemma LandingKeepsExactly(
      st: StoreState, decode: string -> Option<Bundle>, policySetId: string, target: int, seen: Rollout,
      after: StoreState)
    requires RollbackLands(st, decode, policySetId, target, seen, after)
    requires Norm(RequestedSet(policySetId)) in st.rollouts
    ensures var id := Norm(RequestedSet(policySetId));
        && id in after.rollouts
        && ((forall v :: v > 0 && v in st.rollouts[id].validated ==> v in after.rollouts[id].validated)
            <==> (forall v :: v > 0 && v in st.rollouts[id].validated ==> v == target || v in seen.validated))
  {
    hide RollbackLands, RequestedSet, Norm;
    var row := LandingLeaves(st, decode, policySetId, target, seen, after);
  }

  /** The row a rollback writes is always valid, and is stored as it is. */
  lemma RolledBackClean(setId: string, previous: Rollout, target: int)
    requires ValidSetId(Norm(setId)) && target > 0
    ensures CleanRollout(RolledBackTo(setId, previous, target)) == Some(RolledBackTo(Norm(setId), previous, target))
  {
    var versions := previous.validated + [target];
    VersionsCleanTwice(versions);
    CanonicalVersionsExact(versions);
    LettersNormal(DISABLED);
    hide CanonicalVersions, Norm, ValidSetId, Trim;
  }

  /** So it can be written whenever the store takes writes and knows the set. */
  lemma RolledBackFits(st: StoreState, setId: string, previous: Rollout, target: int)
    requires target > 0 && GetVersion(st, setId, target).Found?
    ensures var next := RolledBackTo(setId, previous, target);
        && (CanUpsert(st, next) <==> WriteRollout !in st.failing && Norm(setId) in st.sets)
        && (CanUpsert(st, next) ==>
              var row := RolledBackTo(Norm(setId), previous, target);
              Upserted(st, next) == st.(rollouts := st.rollouts[Norm(setId) := row]))
  {
    FoundVersion(st, setId, target);
    RolledBackClean(setId, previous, target);
    hide CleanRollout, CanonicalVersions, Norm, ValidSetId, GetVersion;
  }

  lemma FoundVersion(st: StoreState, setId: string, target: int)
    requires GetVersion(st, setId, target).Found?
    ensures ValidSetId(Norm(setId)) && (Norm(setId), target) in st.versions
  {
    hide Norm, ValidSetId;
  }

  /** Main result: exactly when a rollback succeeds. */
  lemma RollbackSucceedsExactly(st: StoreState, decode: string -> Option<Bundle>, policySetId: string, target: int)
    ensures var setId := RequestedSet(policySetId);
        RollbackOutcome(st, decode, policySetId, target).0.RolledBack? <==>
        && target > 0 && GetVersion(st, setId, target).Found?
        && AcceptsText(GetVersion(st, setId, target).value.bundle, decode)
        && !GetRollout(st, setId).Unavailable? && WriteRollout !in st.failing && Norm(setId) in st.sets
  {
    hide CanUpsert, Upserted, GetVersion, GetRollout, RequestedSet, RolledBackTo, Norm, AcceptsText;
    var setId := RequestedSet(policySetId);
    if target > 0 && GetVersion(st, setId, target).Found? {
      var fetched := GetRollout(st, setId);
      RolledBackFits(st, setId, if fetched.Found? then fetched.value else NoRollout(setId), target);
    }
  }

  /** A blank request means the default set, any other is trimmed. */
  lemma RequestedSetExact(policySetId: string)
    ensures RequestedSet(policySetId) ==
        if Trim(policySetId) == "" then "central_authorization" else Trim(policySetId)
  {
  }

  /** Main result: exactly which error a failing rollback answers with. A bad target or a
      bundle that does not compile is the caller's fault; a missing version or set is not
      found; failing accesses are the server's. */
  lemma RollbackAnswers(st: StoreState, decode: string -> Option<Bundle>, policySetId: string, target: int)
    ensures var response, setId := RollbackOutcome(st, decode, policySetId, target).0, RequestedSet(policySetId);
        var version := GetVersion(st, setId, target);
        var accepted := target > 0 && version.Found? && AcceptsText(version.value.bundle, decode);
        && (response == BadRequest <==> target <= 0 || (version.Found? && !accepted))
        && (response == ServerError <==>
              || (target > 0 && version.Unavailable?)
              || (accepted && (GetRollout(st, setId).Unavailable? || WriteRollout in st.failing)))
        && (response == NotFound <==>
              || (target > 0 && version.Missing?)
              || (accepted && !GetRollout(st, setId).Unavailable? && WriteRollout !in st.failing
                  && Norm(setId) !in st.sets))
  {
    hide CanUpsert, Upserted, GetVersion, GetRollout, RequestedSet, RolledBackTo, Norm, AcceptsText, EffectiveVersion;
    var setId := RequestedSet(policySetId);
    if target > 0 && GetVersion(st, setId, target).Found? {
      var fetched := GetRollout(st, setId);
      var previous := if fetched.Found? then fetched.value else NoRollout(setId);
      RolledBackFits(st, setId, previous, target);
      NextClean(st, setId, previous, target);
    }
    hide CleanRollout;
  }

  lemma NextClean(st: StoreState, setId: string, previous: Rollout, target: int)
    requires target > 0 && GetVersion(st, setId, target).Found?
    ensures CleanRollout(RolledBackTo(setId, previous, target)).Some?
  {
    FoundVersion(st, setId, target);
    RolledBackClean(setId, previous, target);
    hide CleanRollout, RolledBackTo, Norm, GetVersion;
  }

  /** And what a successful one reports: the version that was effective, in terms of the row it
      found, both earlier pointers, and the target. */
  lemma RollbackReports(st: StoreState, decode: string -> Option<Bundle>, policySetId: string, target: int)
    requires RollbackOutcome(st, decode, policySetId, target).0.RolledBack?
    ensures var response, fetched := RollbackOutcome(st, decode, policySetId, target).0,
                                     GetRollout(st, RequestedSet(policySetId));
        && response.active == target
        && (fetched.Missing? ==> response == RolledBack(None, None, None, target))
        && (fetched.Found? ==>
              var row := fetched.value;
              && response.previousActive == row.active && response.previousCandidate == row.candidate
              && response.previousEffective ==
                 if row.mode == "enforce" && row.candidate.Some? && row.candidate.value > 0
                   && row.candidate.value in row.validated
                 then row.candidate else row.active)
  {
    hide CanUpsert, Upserted, GetVersion, GetRollout, RequestedSet, RolledBackTo, Norm, AcceptsText;
  }

  /** Main result: what a successful rollback leaves behind. Only the set's row changes; it
      names the target alone, and its validated versions are the earlier ones and the target. */
  lemma RollbackLeaves(st: StoreState, decode: string -> Option<Bundle>, policySetId: string, target: int)
    requires RollbackOutcome(st, decode, policySetId, target).0.RolledBack?
    ensures var setId := RequestedSet(policySetId);
        var previous := GetRollout(st, setId);
        exists row ::
          && RollbackOutcome(st, decode, policySetId, target).1 == st.(rollouts := st.rollouts[Norm(setId) := row])
          && row == Rollout(Norm(setId), Some(target), None, "disabled", [], [], 100, row.validated)
          && forall v :: v in row.validated <==>
               v == target || (v > 0 && previous.Found? && v in previous.value.validated)
  {
    hide CanUpsert, Upserted, GetVersion, GetRollout, RequestedSet, RolledBackTo, Norm, AcceptsText, CanonicalVersions;
    var setId := RequestedSet(policySetId);
    var fetched := GetRollout(st, setId);
    var previous := if fetched.Found? then fetched.value else NoRollout(setId);
    RolledBackFits(st, setId, previous, target);
    RolledBackNames(Norm(setId), previous, target);
    var row := RolledBackTo(Norm(setId), previous, target);
    assert row == Rollout(Norm(setId), Some(target), None, "disabled", [], [], 100, row.validated);
  }

  lemma RolledBackNames(setId: string, previous: Rollout, target: int)
    requires target > 0
    ensures var row := RolledBackTo(setId, previous, target);
        && row == Rollout(setId, Some(target), None, "disabled", [], [], 100, row.validated)
        && forall v :: v in row.validated <==> v == target || (v > 0 && v in previous.validated)
  {
    CanonicalVersionsExact(previous.validated + [target]);
    hide CanonicalVersions;
  }
}
