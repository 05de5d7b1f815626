/** The relationship stage of the engine: normalization of relation paths, and which
    decisions the paths of an action amount to. */
module Rebac {
  import opened Text
  import opened Lists
  import opened Policy
  import opened Walk
  import Abac

  /** Normalization of one path: an unsupported relation empties it. */
  function CleanPath(path: RelationPath): RelationPath {
    if forall r :: r in path.relations ==> Supported(Norm(r)) then
      RelationPath(
        seq(|path.relations|, i requires 0 <= i < |path.relations| => Norm(path.relations[i])),
        Abac.CleanConditions(path.allOf))
    else RelationPath([], [])
  }

  function CleanPaths(paths: seq<RelationPath>): seq<RelationPath> {
    if paths == [] then []
    else
      var before := CleanPaths(paths[..|paths| - 1]);
      var path := CleanPath(paths[|paths| - 1]);
      if path.relations == [] then before else before + [path]
  }

  function CleanEntry(policy: RelationPolicy): Option<RelationPolicy> {
    var paths := CleanPaths(policy.anyOf);
    if paths == [] then None else Some(RelationPolicy(paths))
  }

  method NormalizePath(path: RelationPath) returns (clean: RelationPath)
    ensures clean == CleanPath(path)
  {
    var relations := [];
    for i := 0 to |path.relations|
      invariant |relations| == i
      invariant forall j :: 0 <= j < i ==> relations[j] == Norm(path.relations[j]) && Supported(relations[j])
    {
      var relation := Norm(path.relations[i]);
      if !Supported(relation) {
        assert path.relations[i] in path.relations;
        return RelationPath([], []);
      }
      relations := relations + [relation];
    }
    var conditions := Abac.NormalizeConditions(path.allOf);
    return RelationPath(relations, conditions);
  }

  method NormalizePaths(written: seq<RelationPath>) returns (paths: seq<RelationPath>)
    ensures paths == CleanPaths(written)
  {
    hide CleanPath;
    paths := [];
    for i := 0 to |written|
      invariant paths == CleanPaths(written[..i])
    {
      assert written[..i + 1][..i] == written[..i];
      var path := NormalizePath(written[i]);
      if |path.relations| > 0 {
        paths := paths + [path];
      }
    }
    assert written[..|written|] == written;
  }

  method NormalizePolicies(policies: map<string, RelationPolicy>) returns (clean: map<string, RelationPolicy>)
    ensures Rekeyed(policies, clean, CleanEntry)
  {
    hide Norm, CleanPaths, RekeyedSoFar;
    clean := map[];
    var todo := policies.Keys;
    RekeyNone(policies, clean, CleanEntry);
    while todo != {}
      invariant todo <= policies.Keys
      invariant RekeyedSoFar(policies, policies.Keys - todo, clean, CleanEntry)
    {
      var k :| k in todo;
      assert policies.Keys - (todo - {k}) == policies.Keys - todo + {k};
      var paths := NormalizePaths(policies[k].anyOf);
      if Norm(k) != "" && |paths| > 0 {
        RekeyNext(policies, policies.Keys - todo, clean, CleanEntry, k, RelationPolicy(paths));
        clean := clean[Norm(k) := RelationPolicy(paths)];
      } else {
        RekeySkip(policies, policies.Keys - todo, clean, CleanEntry, k);
      }
      todo := todo - {k};
    }
    assert policies.Keys - todo == policies.Keys;
  }

  function SubjectNode(input: Input): Node {
    Node(Norm(input.subject.kind), Trim(input.subject.id))
  }

  function ObjectNode(input: Input): Node {
    Node(Norm(input.resource.kind), Trim(input.resource.id))
  }

  predicate Identified(input: Input) {
    && SubjectNode(input).kind != "" && SubjectNode(input).id != ""
    && ObjectNode(input).kind != "" && ObjectNode(input).id != ""
  }

  /** A path that decides nothing: its conditions fail, or its walk says "no". */
  ghost predicate Passed(store: Store, limit: int, input: Input, p: RelationPath) {
    || !Abac.AllHold(input, p.allOf)
    || WalkMay(store, limit, [SubjectNode(input)], p.relations, ObjectNode(input), Ok(false))
  }

  ghost predicate Decides(store: Store, limit: int, input: Input, p: RelationPath, r: Evaluation) {
    && Abac.AllHold(input, p.allOf)
    && exists w ::
         && WalkMay(store, limit, [SubjectNode(input)], p.relations, ObjectNode(input), w)
         && (w.Err? || w.value)
         && (if w.Err? then r.Failed? else r.Evaluated? && r.outcome == Allow)
  }

  ghost predicate AllPassed(store: Store, limit: int, input: Input, paths: seq<RelationPath>) {
    forall p :: p in paths ==> Passed(store, limit, input, p)
  }

  /** The first path that decides, or denial when none does. */
  ghost predicate PathsMay(store: Store, limit: int, input: Input, paths: seq<RelationPath>, r: Evaluation) {
    || (r.Evaluated? && r.outcome == Deny && AllPassed(store, limit, input, paths))
    || exists k :: 0 <= k < |paths|
         && AllPassed(store, limit, input, paths[..k]) && Decides(store, limit, input, paths[k], r)
  }

  ghost predicate StageMay(
      store: Option<Store>, limit: int, policies: map<string, RelationPolicy>, input: Input, r: Evaluation)
  {
    var action := Norm(input.action);
    if store.None? || action == "" || action !in policies || policies[action].anyOf == [] then
      r.Evaluated? && r.outcome == NoOpinion
    else if !Identified(input) then r.Evaluated? && r.outcome == Deny
    else PathsMay(store.value, limit, input, policies[action].anyOf, r)
  }

  method Evaluate(store: Option<Store>, limit: int, policies: map<string, RelationPolicy>, input: Input)
    returns (r: Evaluation)
    ensures StageMay(store, limit, policies, input, r)
  {
    if store.None? || |policies| == 0 {
      return Evaluated(NoOpinion, "");
    }
    var action := Norm(input.action);
    if action == "" || action !in policies || |policies[action].anyOf| == 0 {
      return Evaluated(NoOpinion, "");
    }
    if !Identified(input) {
      return Evaluated(Deny, "rebac subject or resource identity is missing");
    }
    r := EvaluatePaths(store.value, limit, policies[action].anyOf, input);
  }

  method EvaluatePaths(store: Store, limit: int, paths: seq<RelationPath>, input: Input) returns (r: Evaluation)
    ensures PathsMay(store, limit, input, paths, r)
  {
    hide SubjectNode, ObjectNode, WalkMay, Abac.AllHold;
    for i := 0 to |paths|
      invariant AllPassed(store, limit, input, paths[..i])
    {
      var eligible := Abac.CheckAll(input, paths[i].allOf);
      if eligible {
        var matched := EvaluatePath(store, limit, SubjectNode(input), ObjectNode(input), paths[i].relations);
        if matched.Err? || matched.value {
          r := if matched.Err? then Failed else Evaluated(Allow, "rebac relationship grants action");
          assert Decides(store, limit, input, paths[i], r);
          return;
        }
        assert matched == Ok(false);
      }
      assert Passed(store, limit, input, paths[i]);
      assert paths[..i + 1] == paths[..i] + [paths[i]];
    }
    assert paths[..|paths|] == paths;
    r := Evaluated(Deny, "rebac relationship does not grant action");
  }

  /** Some path whose conditions hold is realized by a chain of tuples. */
  ghost predicate Granted(store: Store, input: Input, paths: seq<RelationPath>) {
    exists p :: p in paths && PathGrants(store, input, p)
  }

  ghost predicate PathGrants(store: Store, input: Input, p: RelationPath) {
    Abac.AllHold(input, p.allOf) && Chain(store, SubjectNode(input), p.relations, ObjectNode(input))
  }

  /** Nothing keeps the walk from seeing every chain. */
  ghost predicate FullyVisible(store: Store, limit: int, input: Input, paths: seq<RelationPath>) {
    KeysInjective(store) && forall p :: p in paths ==> Untruncated(store, limit, SubjectNode(input), p.relations)
  }

  ghost predicate CleanRelations(paths: seq<RelationPath>) {
    forall p :: p in paths ==> p.relations != [] && AllSupported(p.relations)
  }

  lemma IdentifiedReady(input: Input)
    requires Identified(input)
    ensures Ready(SubjectNode(input)) && Ready(ObjectNode(input))
  {
    NormIdempotent(input.subject.kind);
    NormIdempotent(input.resource.kind);
  }

  lemma PassedNotGranted(store: Store, limit: int, input: Input, p: RelationPath)
    requires ValidStore(store) && Identified(input) && AllSupported(p.relations)
    requires Passed(store, limit, input, p)
    requires KeysInjective(store) && Untruncated(store, limit, SubjectNode(input), p.relations)
    ensures !PathGrants(store, input, p)
  {
    IdentifiedReady(input);
    hide Ready, WalkMay, Chain, KeysInjective, Untruncated, ValidStore, AllSupported, Abac.AllHold;
    if Abac.AllHold(input, p.allOf) {
      WalkDecidesChain(store, limit, SubjectNode(input), p.relations, ObjectNode(input), false);
    }
  }

  lemma DecidesGranted(store: Store, limit: int, input: Input, p: RelationPath, r: Evaluation)
    requires ValidStore(store) && Identified(input) && AllSupported(p.relations)
    requires Decides(store, limit, input, p, r) && r.Evaluated?
    ensures r.outcome == Allow && PathGrants(store, input, p)
  {
    IdentifiedReady(input);
    hide Ready, WalkMay, Chain, KeysInjective, Untruncated, ValidStore, AllSupported, Abac.AllHold;
    assert WalkMay(store, limit, [SubjectNode(input)], p.relations, ObjectNode(input), Ok(true));
    WalkDecidesChain(store, limit, SubjectNode(input), p.relations, ObjectNode(input), true);
  }

  /** Main result of the stage: an allow always has a realized path behind it, and a deny
      means there is none, when nothing hides a chain from the walk. */
  lemma PathsExact(store: Store, limit: int, input: Input, paths: seq<RelationPath>, r: Evaluation)
    requires ValidStore(store) && Identified(input) && CleanRelations(paths)
    requires PathsMay(store, limit, input, paths, r) && r.Evaluated?
    ensures r.outcome == Allow || r.outcome == Deny
    ensures r.outcome == Allow ==> Granted(store, input, paths)
    ensures FullyVisible(store, limit, input, paths) && Granted(store, input, paths) ==> r.outcome == Allow
  {
    hide Identified, ValidStore, AllSupported, Passed, Decides, PathGrants, KeysInjective, Untruncated, SubjectNode;
    if k :| 0 <= k < |paths| && Decides(store, limit, input, paths[k], r) {
      DecidesGranted(store, limit, input, paths[k], r);
    } else if FullyVisible(store, limit, input, paths) {
      forall p | p in paths
        ensures !PathGrants(store, input, p)
      {
        PassedNotGranted(store, limit, input, p);
      }
    }
  }

  /** The same for the whole stage, on an action with relation paths. */
  lemma StageExact(store: Store, limit: int, policies: map<string, RelationPolicy>, input: Input, r: Evaluation)
    requires StageMay(Some(store), limit, policies, input, r) && r.Evaluated? && ValidStore(store)
    requires Norm(input.action) != "" && Norm(input.action) in policies
    requires CleanRelations(policies[Norm(input.action)].anyOf)
    ensures var paths := policies[Norm(input.action)].anyOf;
        && (r.outcome == Allow ==> Identified(input) && Granted(store, input, paths))
        && (FullyVisible(store, limit, input, paths) && Identified(input) && Granted(store, input, paths) ==>
              r.outcome == Allow)
  {
    hide Identified, ValidStore, PathsMay, Granted, FullyVisible, CleanRelations, Norm;
    var paths := policies[Norm(input.action)].anyOf;
    NothingGranted(store, input, paths);
    if paths != [] && Identified(input) {
      PathsExact(store, limit, input, paths, r);
    }
  }

  // ----- in the request's own fields -----

  /** The tuples start at the request's subject and end at its resource. */
  ghost predicate LeadsThere(input: Input, rows: seq<Row>) {
    && rows != []
    && rows[0].subject.kind == Norm(input.subject.kind) && rows[0].subject.id == Trim(input.subject.id)
    && rows[|rows| - 1].target.kind == Norm(input.resource.kind)
    && rows[|rows| - 1].target.id == Trim(input.resource.id)
  }

  /** What `Granted` means: such tuples exist, for a path whose conditions hold. */
  lemma GrantedExact(store: Store, input: Input, paths: seq<RelationPath>)
    requires ValidStore(store)
    ensures Granted(store, input, paths) <==>
        exists p, rows ::
          && p in paths && (forall c :: c in p.allOf ==> Abac.Holds(input, c))
          && Links(store, rows, p.relations) && LeadsThere(input, rows)
  {
    hide ValidStore, Norm, Trim, Chain, Abac.Holds, Links;
    if Granted(store, input, paths) {
      var p :| p in paths && PathGrants(store, input, p);
      var rows := ChainToRows(store, SubjectNode(input), p.relations, ObjectNode(input));
      assert LeadsThere(input, rows);
    }
    if p, rows :|
      && p in paths && (forall c :: c in p.allOf ==> Abac.Holds(input, c))
      && Links(store, rows, p.relations) && LeadsThere(input, rows)
    {
      RowsIdentify(store, input, p, rows);
      RowsToChain(store, rows, p.relations);
      assert PathGrants(store, input, p);
    }
  }

  /** Main result: behind every allow of the stage there are live stored tuples, with the
      relations of one of the action's paths, that lead from the request's subject to its
      resource; the path's conditions hold. */
  lemma AllowHasTuples(store: Store, limit: int, policies: map<string, RelationPolicy>, input: Input, r: Evaluation)
    returns (p: RelationPath, rows: seq<Row>)
    requires StageMay(Some(store), limit, policies, input, r) && ValidStore(store)
    requires r.Evaluated? && r.outcome == Allow
    requires Norm(input.action) in policies && CleanRelations(policies[Norm(input.action)].anyOf)
    ensures p in policies[Norm(input.action)].anyOf && forall c :: c in p.allOf ==> Abac.Holds(input, c)
    ensures Links(store, rows, p.relations) && LeadsThere(input, rows)
  {
    hide ValidStore, PathsMay, CleanRelations, Norm, FullyVisible, Chain, Abac.Holds, Links;
    StageExact(store, limit, policies, input, r);
    p :| p in policies[Norm(input.action)].anyOf && PathGrants(store, input, p);
    rows := ChainToRows(store, SubjectNode(input), p.relations, ObjectNode(input));
  }

  /** Main result: such tuples make the stage allow, unless a query fails. A single tuple
      always does; for longer paths keys must be unambiguous and listings long enough. */
  lemma TuplesAllow(
      store: Store, limit: int, policies: map<string, RelationPolicy>, input: Input, r: Evaluation,
      p: RelationPath, rows: seq<Row>)
    requires StageMay(Some(store), limit, policies, input, r) && ValidStore(store) && r.Evaluated?
    requires Norm(input.action) != "" && Norm(input.action) in policies
    requires CleanRelations(policies[Norm(input.action)].anyOf)
    requires p in policies[Norm(input.action)].anyOf && forall c :: c in p.allOf ==> Abac.Holds(input, c)
    requires Links(store, rows, p.relations) && LeadsThere(input, rows)
    requires |rows| == 1 || (KeysInjective(store) && (limit <= 0 || |store.rows| <= limit))
    ensures r.outcome == Allow
  {
    RowsIdentify(store, input, p, rows);
    var paths := policies[Norm(input.action)].anyOf;
    hide ValidStore, CleanRelations, Norm, Chain, Links, KeysInjective, WalkMay, Identified, LeadsThere, AllSupported;
    if AllPassed(store, limit, input, paths) {
      TuplesPass(store, limit, input, p, rows);
    }
  }

  lemma RowsIdentify(store: Store, input: Input, p: RelationPath, rows: seq<Row>)
    requires ValidStore(store) && Links(store, rows, p.relations) && LeadsThere(input, rows)
    ensures Identified(input)
    ensures SubjectNode(input) == rows[0].subject && ObjectNode(input) == rows[|rows| - 1].target
  {
    hide Norm, Trim, CleanNode;
    assert StoredRow(rows[0]) && StoredRow(rows[|rows| - 1]);
  }

  /** Such tuples are not passed over. */
  lemma TuplesPass(store: Store, limit: int, input: Input, p: RelationPath, rows: seq<Row>)
    requires ValidStore(store) && AllSupported(p.relations) && Identified(input)
    requires Links(store, rows, p.relations) && LeadsThere(input, rows)
    requires SubjectNode(input) == rows[0].subject && ObjectNode(input) == rows[|rows| - 1].target
    requires |rows| == 1 || (KeysInjective(store) && (limit <= 0 || |store.rows| <= limit))
    requires forall c :: c in p.allOf ==> Abac.Holds(input, c)
    ensures !Passed(store, limit, input, p)
  {
    hide ValidStore, Norm, Trim, Chain, KeysInjective, Identified, AllSupported, Abac.Holds, Untruncated, SubjectNode;
    hide ObjectNode;
    RowsToChain(store, rows, p.relations);
    if |rows| == 1 {
      OneTuple(store, limit, input, p, rows[0]);
    } else {
      hide Links;
      SmallUntruncated(store, limit, SubjectNode(input), p.relations);
      if Passed(store, limit, input, p) {
        PassedNotGranted(store, limit, input, p);
      }
    }
  }

  lemma OneTuple(store: Store, limit: int, input: Input, p: RelationPath, row: Row)
    requires ValidStore(store) && AllSupported(p.relations) && Identified(input)
    requires Links(store, [row], p.relations) && SubjectNode(input) == row.subject && ObjectNode(input) == row.target
    ensures !WalkMay(store, limit, [SubjectNode(input)], p.relations, ObjectNode(input), Ok(false))
  {
    IdentifiedReady(input);
    hide ValidStore, Ready, LastHop, Identified, SubjectNode, ObjectNode, Supported;
    assert [row][0] == row && p.relations[0] in p.relations;
    LastHopExact(store, limit, [row.subject], p.relations[0], row.target);
    assert IsEdge(row, store.now, row.subject, p.relations[0], row.target);
    assert row.subject in [row.subject];
  }

  lemma NothingGranted(store: Store, input: Input, paths: seq<RelationPath>)
    ensures paths == [] ==> !Granted(store, input, paths)
  {
  }

  lemma {:induction false} CleanPathsReady(paths: seq<RelationPath>)
    ensures CleanRelations(CleanPaths(paths))
  {
    if paths != [] {
      CleanPathsReady(paths[..|paths| - 1]);
    }
  }

  /** A path cleans to itself once cleaned. */
  lemma CleanPathIdempotent(path: RelationPath)
    ensures CleanPath(CleanPath(path)) == CleanPath(path)
  {
    var once := CleanPath(path);
    forall i | 0 <= i < |once.relations|
      ensures Norm(once.relations[i]) == once.relations[i]
    {
      NormIdempotent(path.relations[i]);
    }
    Abac.CleanConditionsIdempotent(path.allOf);
  }

  lemma {:induction false} CleanPathsIdempotent(paths: seq<RelationPath>)
    ensures CleanPaths(CleanPaths(paths)) == CleanPaths(paths)
  {
    if paths != [] {
      var front := paths[..|paths| - 1];
      CleanPathsIdempotent(front);
      CleanPathIdempotent(paths[|paths| - 1]);
      var path := CleanPath(paths[|paths| - 1]);
      assert (CleanPaths(front) + [path])[..|CleanPaths(front)|] == CleanPaths(front);
    }
  }
}
