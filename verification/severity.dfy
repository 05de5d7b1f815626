/** Advisory authorization: picking the most severe verification of a remediation case, and
    the classifier whose order the pick must mirror. */
module Severity {
  import opened Text

  const FAILED := "verification_failed"
  const ROLLBACK := "rollback_planned"
  const BLOCKED := "blocked"
  const PENDING := "verification_pending"
  const NOT_READY := "not_ready"
  const SKIPPED := "skipped"
  const VERIFIED := "verification_verified"

  datatype Entry = Entry(id: string, state: string, killSwitch: bool)

  datatype Case = Case(lifecycle: string, approvalState: string, approvalRequired: bool, severity: string)

  datatype Outcome = Allow | Warn | RequireApproval | RecommendDeny | Quarantine

  const NOTHING := Entry("", "", false)

  function Rank(e: Entry): nat {
    if e.killSwitch then 100
    else if e.state == FAILED || e.state == ROLLBACK then 90
    else if e.state == BLOCKED then 80
    else if e.state == PENDING then 50
    else if e.state == NOT_READY then 40
    else if e.state == SKIPPED then 30
    else if e.state == VERIFIED then 10
    else 0
  }

  /** What the case itself says when no verification state decides. */
  function ClassifyCase(c: Case): Outcome {
    if Lower(c.lifecycle) == "resolved" then Allow
    else if Lower(c.approvalState) == "blocked" then RecommendDeny
    else if Lower(c.approvalState) == "approved" then RequireApproval
    else if c.approvalRequired then RequireApproval
    else if Norm(c.severity) == "critical" || Norm(c.severity) == "high" then Warn
    else Allow
  }

  function Classify(c: Case, e: Entry): Outcome {
    if e.killSwitch then Quarantine
    else if e.state == FAILED || e.state == ROLLBACK then Quarantine
    else if e.state == VERIFIED then Allow
    else if e.state == BLOCKED then RecommendDeny
    else if e.state == PENDING then RequireApproval
    else if e.state == NOT_READY || e.state == SKIPPED then Warn
    else ClassifyCase(c)
  }

  /** The declared strictness order of outcomes. */
  function Strictness(o: Outcome): nat {
    match o
    case Allow => 0
    case Warn => 1
    case RequireApproval => 2
    case RecommendDeny => 3
    case Quarantine => 4
  }

  // ----- the fold -----

  function Selected(entries: seq<Entry>): Entry {
    if entries == [] then NOTHING
    else
      var selected := Selected(entries[..|entries| - 1]);
      var entry := entries[|entries| - 1];
      if selected.id == "" || Rank(entry) > Rank(selected) then entry else selected
  }

  method MostSevere(entries: seq<Entry>) returns (selected: Entry)
    ensures selected == Selected(entries)
  {
    hide Rank;
    selected := NOTHING;
    for i := 0 to |entries|
      invariant selected == Selected(entries[..i])
    {
      assert entries[..i + 1][..i] == entries[..i];
      if selected.id == "" || Rank(entries[i]) > Rank(selected) {
        selected := entries[i];
      }
    }
    assert entries[..|entries|] == entries;
  }

  // ----- which entry is picked -----

  ghost predicate Maximal(entries: seq<Entry>, rank: nat) {
    && (exists e :: e in entries && Rank(e) == rank)
    && (forall e :: e in entries ==> Rank(e) <= rank)
  }

  /** An entry of the given rank that cannot be displaced. */
  predicate Survives(entries: seq<Entry>, rank: nat) {
    || (exists i :: 0 <= i < |entries| && entries[i].id != "" && Rank(entries[i]) == rank)
    || (entries != [] && Rank(entries[|entries| - 1]) == rank)
  }

  lemma {:induction false} SelectedMember(entries: seq<Entry>)
    requires entries != []
    ensures Selected(entries) in entries
  {
    hide Rank;
    if |entries| > 1 {
      SelectedMember(entries[..|entries| - 1]);
    }
  }

  /** An identified entry of the highest rank is never displaced. */
  lemma {:induction false} Undisplaced(entries: seq<Entry>, i: nat, rank: nat)
    requires i < |entries| && entries[i].id != "" && Rank(entries[i]) == rank
    requires forall e :: e in entries ==> Rank(e) <= rank
    ensures Selected(entries).id != "" && Rank(Selected(entries)) == rank
  {
    hide Rank;
    var front := entries[..|entries| - 1];
    if i < |front| {
      Undisplaced(front, i, rank);
    } else if front != [] {
      SelectedMember(front);
    }
  }

  /** Without such an entry the pick has the highest rank only if it is the last. */
  lemma OnlyLastLeft(entries: seq<Entry>, rank: nat)
    requires entries != [] && Rank(Selected(entries)) == rank
    requires forall i :: 0 <= i < |entries| ==> entries[i].id == "" || Rank(entries[i]) != rank
    ensures Rank(entries[|entries| - 1]) == rank
  {
    hide Rank;
    var front := entries[..|entries| - 1];
    if front != [] {
      SelectedMember(front);
      var j :| 0 <= j < |front| && front[j] == Selected(front);
      assert entries[j] == front[j];
    }
  }

  lemma LastStays(entries: seq<Entry>, rank: nat)
    requires entries != [] && Rank(entries[|entries| - 1]) == rank
    requires forall e :: e in entries ==> Rank(e) <= rank
    ensures Rank(Selected(entries)) == rank
  {
    hide Rank;
    SelectedMember(entries);
  }

  /** Main result: the pick has the highest rank exactly when an entry of that rank carries a
      verification ID or comes last. An entry without an ID is displaced by whatever follows. */
  lemma SelectedExact(entries: seq<Entry>, rank: nat)
    requires Maximal(entries, rank)
    ensures Rank(Selected(entries)) == rank <==> Survives(entries, rank)
  {
    hide Rank, Selected;
    if i: int :| 0 <= i < |entries| && entries[i].id != "" && Rank(entries[i]) == rank {
      Undisplaced(entries, i, rank);
    } else if Rank(entries[|entries| - 1]) == rank {
      LastStays(entries, rank);
    } else if Rank(Selected(entries)) == rank {
      OnlyLastLeft(entries, rank);
    }
  }

  /** Nothing after position `i` displaces the entry there. */
  predicate Kept(entries: seq<Entry>, i: nat) {
    && i < |entries|
    && (entries[i].id != "" || i == |entries| - 1)
    && forall j :: i < j < |entries| ==> Rank(entries[j]) <= Rank(entries[i])
  }

  ghost predicate FirstKept(entries: seq<Entry>, i: nat) {
    Kept(entries, i) && forall j: nat :: j < i ==> !Kept(entries, j)
  }

  lemma KeptInside(entries: seq<Entry>, i: nat)
    requires Kept(entries, i)
    ensures i < |entries|
  {
  }

  /** Appending an entry that does not outrank a kept one with an ID keeps it. */
  lemma KeptAppend(front: seq<Entry>, last: Entry, i: nat)
    requires i < |front|
    ensures Kept(front + [last], i) <==>
        Kept(front, i) && front[i].id != "" && Rank(last) <= Rank(front[i])
  {
    hide Rank;
    var entries := front + [last];
    if Kept(entries, i) {
      forall j | i < j < |front|
        ensures Rank(front[j]) <= Rank(front[i])
      {
        assert entries[j] == front[j];
      }
      assert entries[|front|] == last;
    }
  }

  /** Main result: the fold picks the first entry that nothing after it displaces. */
  lemma {:induction false} SelectedIsFirstKept(entries: seq<Entry>) returns (i: nat)
    requires entries != []
    ensures FirstKept(entries, i) && Selected(entries) == entries[i]
  {
    hide Rank, Kept;
    var front, last := entries[..|entries| - 1], entries[|entries| - 1];
    assert entries == front + [last];
    LastKept(entries);
    if front == [] {
      i := 0;
    } else {
      var k := SelectedIsFirstKept(front);
      KeptInside(front, k);
      forall j: nat | j < |front|
        ensures Kept(entries, j) <==> Kept(front, j) && front[j].id != "" && Rank(last) <= Rank(front[j])
      {
        KeptAppend(front, last, j);
      }
      if front[k].id == "" || Rank(last) > Rank(front[k]) {
        i := |front|;
        forall j: nat | j < i
          ensures !Kept(entries, j)
        {
          if Kept(entries, j) && j != k {
            KeptBelow(front, k, j);
          }
        }
      } else {
        i := k;
      }
    }
  }

  lemma LastKept(entries: seq<Entry>)
    requires entries != []
    ensures Kept(entries, |entries| - 1)
  {
  }

  /** A kept entry that others follow carries an ID, and none of them outranks it. */
  lemma KeptBelow(entries: seq<Entry>, k: nat, j: nat)
    requires Kept(entries, k) && k < j && j < |entries|
    ensures entries[k].id != "" && Rank(entries[j]) <= Rank(entries[k])
  {
    hide Rank;
  }

  // ----- the fold mirrors the classifier -----

  predicate KnownState(e: Entry) {
    e.killSwitch || e.state in [FAILED, ROLLBACK, BLOCKED, PENDING, NOT_READY, SKIPPED, VERIFIED]
  }

  predicate Proper(entries: seq<Entry>) {
    forall e :: e in entries ==> KnownState(e) && e.id != ""
  }

  /** For known states the rank order and the classifier agree. */
  lemma RankMirrorsClassify(c: Case, e: Entry, f: Entry)
    requires KnownState(e) && KnownState(f) && Rank(e) <= Rank(f)
    ensures Strictness(Classify(c, e)) <= Strictness(Classify(c, f))
  {
    hide ClassifyCase;
    KnownLevel(c, e);
    KnownLevel(c, f);
  }

  /** The classifier, outcome by outcome. */
  lemma ClassifyExact(c: Case, e: Entry)
    ensures Classify(c, e) == Quarantine <==>
        e.killSwitch || e.state in ["verification_failed", "rollback_planned"]
    ensures Classify(c, e) == RecommendDeny <==>
        !e.killSwitch && (e.state == "blocked" || (!KnownState(e) && CaseBlocked(c)))
    ensures Classify(c, e) == RequireApproval <==>
        !e.killSwitch && (e.state == "verification_pending" || (!KnownState(e) && CaseWaits(c)))
    ensures Classify(c, e) == Warn <==>
        !e.killSwitch && (e.state in ["not_ready", "skipped"] || (!KnownState(e) && CaseWarns(c)))
    ensures Classify(c, e) == Allow <==>
        !e.killSwitch
        && (e.state == "verification_verified"
            || (!KnownState(e) && !CaseBlocked(c) && !CaseWaits(c) && !CaseWarns(c)))
  {
    hide Lower, Norm;
  }

  /** What an unresolved case asks for when no verification decides: a blocked change is
      denied, ... */
  predicate CaseBlocked(c: Case) {
    Lower(c.lifecycle) != "resolved" && Lower(c.approvalState) == "blocked"
  }

  /** ... a change that is approved but not applied, or not yet approved, needs approval, ... */
  predicate CaseWaits(c: Case) {
    Lower(c.lifecycle) != "resolved"
    && (Lower(c.approvalState) == "approved" || (c.approvalRequired && Lower(c.approvalState) != "blocked"))
  }

  /** ... and a severe finding warns. */
  predicate CaseWarns(c: Case) {
    && Lower(c.lifecycle) != "resolved" && Lower(c.approvalState) !in ["blocked", "approved"] && !c.approvalRequired
    && Norm(c.severity) in ["critical", "high"]
  }

  lemma KnownLevel(c: Case, e: Entry)
    requires KnownState(e)
    ensures Strictness(Classify(c, e)) ==
        if Rank(e) >= 90 then 4 else if Rank(e) >= 80 then 3 else if Rank(e) >= 50 then 2
        else if Rank(e) >= 30 then 1 else 0
  {
    hide ClassifyCase;
  }

  /** Nobody in the list classifies stricter than `e`. */
  ghost predicate Strictest(c: Case, entries: seq<Entry>, e: Entry) {
    e in entries
    && forall f :: f in entries ==> Strictness(Classify(c, f)) <= Strictness(Classify(c, e))
  }

  lemma {:induction false} HighestRank(entries: seq<Entry>) returns (rank: nat)
    requires entries != []
    ensures Maximal(entries, rank)
  {
    hide Rank;
    var front, last := entries[..|entries| - 1], entries[|entries| - 1];
    assert entries == front + [last];
    rank := Rank(last);
    if front != [] {
      var before := HighestRank(front);
      if before > rank {
        rank := before;
        var e :| e in front && Rank(e) == rank;
        assert e in entries;
      }
    }
    assert last in entries;
  }

  lemma KnownRank(e: Entry)
    ensures KnownState(e) <==> Rank(e) > 0
  {
  }

  lemma UnknownOutcome(c: Case, e: Entry)
    requires !KnownState(e)
    ensures Classify(c, e) == ClassifyCase(c)
  {
    hide ClassifyCase;
  }

  /** An entry that counts: kept, as strict as any, and with a known state unless no kept
      entry has one. */
  ghost predicate Decides(c: Case, entries: seq<Entry>, i: nat) {
    && Kept(entries, i) && Strictest(c, entries, entries[i])
    && (KnownState(entries[i]) || forall j: nat :: Kept(entries, j) ==> !KnownState(entries[j]))
  }

  /** The first kept entry is at least as strict as one that decides. */
  lemma FirstAsStrict(c: Case, entries: seq<Entry>, m: nat, i: nat)
    requires FirstKept(entries, m) && Decides(c, entries, i)
    ensures Strictness(Classify(c, entries[m])) >= Strictness(Classify(c, entries[i]))
  {
    hide Classify, Rank, KnownState;
    if m < i {
      KnownRank(entries[m]);
      KnownRank(entries[i]);
      assert Kept(entries, m);
      if KnownState(entries[i]) {
        RankMirrorsClassify(c, entries[i], entries[m]);
      } else {
        UnknownOutcome(c, entries[m]);
        UnknownOutcome(c, entries[i]);
      }
    }
  }

  /** If the first kept entry has an unknown state, so has every kept entry. */
  lemma UnknownFirst(entries: seq<Entry>, m: nat, j: nat)
    requires FirstKept(entries, m) && !KnownState(entries[m]) && Kept(entries, j)
    ensures !KnownState(entries[j])
  {
    hide Rank, KnownState;
    KnownRank(entries[m]);
    KnownRank(entries[j]);
  }

  /** Main result: exactly when the pick classifies as the strictest of all, for any IDs and
      any states: some kept entry is as strict as any, and has a known state unless no kept
      entry has. */
  lemma StrictestExactly(c: Case, entries: seq<Entry>)
    requires entries != []
    ensures Strictest(c, entries, Selected(entries)) <==> exists i: nat :: Decides(c, entries, i)
  {
    hide Classify, Rank, KnownState, Kept, Selected;
    var m := SelectedIsFirstKept(entries);
    KeptInside(entries, m);
    if Strictest(c, entries, entries[m]) {
      if !KnownState(entries[m]) {
        forall j: nat | Kept(entries, j)
          ensures j < |entries| && !KnownState(entries[j])
        {
          KeptInside(entries, j);
          UnknownFirst(entries, m, j);
        }
      }
      assert Decides(c, entries, m);
    }
    if i: nat :| Decides(c, entries, i) {
      KeptInside(entries, i);
      FirstAsStrict(c, entries, m, i);
    }
  }

  /** Over known states it suffices that some strictest entry is kept: it carries an ID or
      comes last, and no later entry outranks it. */
  lemma KnownStrictestExactly(c: Case, entries: seq<Entry>)
    requires entries != [] && forall e :: e in entries ==> KnownState(e)
    ensures Strictest(c, entries, Selected(entries)) <==>
        exists i: nat :: Kept(entries, i) && Strictest(c, entries, entries[i])
  {
    hide Classify, Rank, KnownState, Selected;
    StrictestExactly(c, entries);
    if i: nat :| Kept(entries, i) && Strictest(c, entries, entries[i]) {
      assert entries[i] in entries;
      assert Decides(c, entries, i);
    }
    if i: nat :| Decides(c, entries, i) {
      assert Kept(entries, i) && Strictest(c, entries, entries[i]);
    }
  }

  /** The entries the code produces: known states, and always an ID. Then the pick is always
      the strictest. */
  lemma SelectedIsStrictest(c: Case, entries: seq<Entry>)
    requires entries != [] && Proper(entries)
    ensures Strictest(c, entries, Selected(entries))
  {
    hide Classify, Rank, KnownState;
    var rank := ProperSurvives(entries);
    SelectedExact(entries, rank);
    SelectedMember(entries);
    forall f | f in entries
      ensures Strictness(Classify(c, f)) <= Strictness(Classify(c, Selected(entries)))
    {
      RankMirrorsClassify(c, f, Selected(entries));
    }
  }

  lemma ProperSurvives(entries: seq<Entry>) returns (rank: nat)
    requires entries != [] && Proper(entries)
    ensures Maximal(entries, rank) && Survives(entries, rank)
  {
    hide Rank, KnownState;
    rank := HighestRank(entries);
    var e :| e in entries && Rank(e) == rank;
    var i :| 0 <= i < |entries| && entries[i] == e;
  }

  /** Main result: with verification IDs, the outcome depends on which entries there are, not
      on their order. */
  lemma OrderDoesNotMatter(c: Case, a: seq<Entry>, b: seq<Entry>)
    requires a != [] && Proper(a) && forall e :: e in a <==> e in b
    ensures Classify(c, Selected(a)) == Classify(c, Selected(b))
  {
    hide Classify, Rank, KnownState;
    assert a[0] in b;
    SelectedIsStrictest(c, a);
    SelectedIsStrictest(c, b);
    SameStrictness(Classify(c, Selected(a)), Classify(c, Selected(b)));
  }

  lemma SameStrictness(a: Outcome, b: Outcome)
    requires Strictness(a) == Strictness(b)
    ensures a == b
  {
  }

  /** Main result: one engaged kill switch or failed verification with an ID quarantines the
      whole case, whatever the other entries say. */
  lemma AlarmQuarantines(c: Case, entries: seq<Entry>, i: nat)
    requires i < |entries| && entries[i].id != "" && Rank(entries[i]) >= 90
    requires forall e :: e in entries && e.id == "" ==> Rank(e) < 90
    ensures Classify(c, Selected(entries)) == Quarantine
  {
    hide Rank, Classify, Selected;
    var rank := HighestRank(entries);
    assert entries[i] in entries;
    var e :| e in entries && Rank(e) == rank;
    var j :| 0 <= j < |entries| && entries[j] == e;
    Undisplaced(entries, j, rank);
    HighRankQuarantines(c, Selected(entries));
  }

  lemma HighRankQuarantines(c: Case, e: Entry)
    requires Rank(e) >= 90
    ensures Classify(c, e) == Quarantine
  {
  }

  // ----- where the mirror breaks, on entries the verifications never produce -----

  /** Without a verification ID even an engaged kill switch is displaced by the next entry. */
  lemma BlankIdDisplaced(c: Case, id: string)
    ensures var alarm, fine := Entry("", VERIFIED, true), Entry(id, VERIFIED, false);
        Classify(c, alarm) == Quarantine && Classify(c, Selected([alarm, fine])) == Allow
  {
    var alarm, fine := Entry("", VERIFIED, true), Entry(id, VERIFIED, false);
    assert [alarm, fine][..1] == [alarm] && [alarm][..0] == [];
    assert Selected([alarm]) == alarm;
  }

  /** An unknown state ranks below a verified one, yet the case alone may classify it as
      stricter. */
  lemma UnknownStateUnderstated(c: Case, id: string, unknown: string)
    requires id != "" && !KnownState(Entry(id, unknown, false)) && ClassifyCase(c) != Allow
    ensures var a, b := Entry(id, unknown, false), Entry(id, VERIFIED, false);
        !Strictest(c, [a, b], Selected([a, b]))
  {
    hide ClassifyCase;
    var a, b := Entry(id, unknown, false), Entry(id, VERIFIED, false);
    assert [a, b][..1] == [a] && [a][..0] == [];
    assert Selected([a]) == a && Selected([a, b]) == b;
    assert a in [a, b];
  }
}
