/** Deduplication of AI-agent risk findings: findings with the same cleaned ID are merged,
    in order of first occurrence. */
module Findings {
  import opened Text
  import opened Lists

  /** Evidence is opaque but for its reference. */
  datatype Evidence = Evidence(ref: string, detail: string)

  datatype Preview = Preview(
    blockingEvidence: seq<string>, impactedCount: nat, riskDrop: int, approvalRequired: bool)

  /** `details` stands for the fields that are only ever copied as a block. */
  datatype Finding = Finding(
    id: string, severity: string, status: string, score: int, confidence: real, details: string,
    signals: seq<string>, tools: seq<string>, capabilities: seq<string>, sensitive: seq<string>,
    impacted: seq<string>, evidence: seq<Evidence>, preview: Preview)

  function Refs(evidence: seq<Evidence>): seq<string> {
    seq(|evidence|, i requires 0 <= i < |evidence| => evidence[i].ref)
  }

  function PreviewOf(f: Finding): Preview {
    Preview(
      Dedupe(Refs(f.evidence)), |f.impacted|, if f.score < 40 then f.score else 40,
      f.severity == "critical" || f.severity == "high")
  }

  function Union(a: seq<string>, b: seq<string>): seq<string> {
    Dedupe(a + b)
  }

  function Merge(existing: Finding, incoming: Finding): Finding {
    var merged := if incoming.score > existing.score then incoming else existing;
    var joined := merged.(
      confidence := if incoming.confidence > merged.confidence then incoming.confidence else merged.confidence,
      signals := Union(existing.signals, incoming.signals),
      tools := Union(existing.tools, incoming.tools),
      capabilities := Union(existing.capabilities, incoming.capabilities),
      sensitive := Union(existing.sensitive, incoming.sensitive),
      impacted := Union(existing.impacted, incoming.impacted),
      evidence := existing.evidence + incoming.evidence,
      status := if merged.status == "" then incoming.status else merged.status);
    joined.(preview := PreviewOf(joined))
  }

  // ----- groups -----

  predicate Counted(f: Finding) {
    f.id != ""
  }

  function Key(f: Finding): string {
    Norm(f.id)
  }

  /** The findings with the given key, in order. */
  function Group(findings: seq<Finding>, key: string): seq<Finding> {
    if findings == [] then []
    else
      var last := findings[|findings| - 1];
      Group(findings[..|findings| - 1], key) + (if Counted(last) && Key(last) == key then [last] else [])
  }

  /** The keys in order of first occurrence. */
  function Keys(findings: seq<Finding>): (ks: seq<string>)
    ensures Distinct(ks)
    ensures forall k :: k in ks <==> Group(findings, k) != []
  {
    if findings == [] then []
    else
      var last := findings[|findings| - 1];
      var before := Keys(findings[..|findings| - 1]);
      if Counted(last) && Key(last) !in before then before + [Key(last)] else before
  }

  function MergeAll(group: seq<Finding>): Finding
    requires group != []
  {
    if |group| == 1 then group[0]
    else Merge(MergeAll(group[..|group| - 1]), group[|group| - 1])
  }

  /** One finding per key: its whole group, merged. */
  function Deduped(findings: seq<Finding>): seq<Finding> {
    var ks := Keys(findings);
    seq(|ks|, i requires 0 <= i < |ks| => MergeAll(Group(findings, ks[i])))
  }

  lemma {:induction false} GroupMember(findings: seq<Finding>, key: string, i: nat)
    requires i < |Group(findings, key)|
    ensures var f := Group(findings, key)[i];
        f in findings && Counted(f) && Key(f) == key
  {
    hide Key;
    var front := findings[..|findings| - 1];
    if i < |Group(front, key)| {
      GroupMember(front, key, i);
    }
  }

  lemma GroupGrows(findings: seq<Finding>, f: Finding, key: string)
    ensures Group(findings + [f], key) == Group(findings, key) + (if Counted(f) && Key(f) == key then [f] else [])
    ensures Keys(findings + [f]) ==
        if Counted(f) && Key(f) !in Keys(findings) then Keys(findings) + [Key(f)] else Keys(findings)
  {
    assert (findings + [f])[..|findings|] == findings;
  }

  lemma MergeGrows(group: seq<Finding>, f: Finding)
    requires group != []
    ensures MergeAll(group + [f]) == Merge(MergeAll(group), f)
  {
    assert (group + [f])[..|group|] == group;
  }

  // ----- the algorithm -----

  /** The `seen` map holds the merged group of every key seen so far. */
  ghost predicate Seen(findings: seq<Finding>, seen: map<string, Finding>) {
    && (forall k :: k in seen <==> k in Keys(findings))
    && (forall k :: k in seen ==> seen[k] == MergeAll(Group(findings, k)))
  }

  lemma SeenSkips(findings: seq<Finding>, f: Finding, seen: map<string, Finding>)
    requires Seen(findings, seen) && !Counted(f)
    ensures Seen(findings + [f], seen)
  {
    hide Merge, Key;
    forall k
      ensures Group(findings + [f], k) == Group(findings, k)
    {
      GroupGrows(findings, f, k);
    }
  }

  lemma GroupAfter(findings: seq<Finding>, f: Finding, k: string)
    requires Counted(f)
    ensures k in Keys(findings + [f]) <==> k in Keys(findings) || k == Key(f)
    ensures k in Keys(findings) ==>
        MergeAll(Group(findings + [f], k)) ==
        if k == Key(f) then Merge(MergeAll(Group(findings, k)), f) else MergeAll(Group(findings, k))
    ensures Key(f) !in Keys(findings) ==> MergeAll(Group(findings + [f], Key(f))) == f
  {
    hide Merge, Key;
    GroupGrows(findings, f, k);
    if k in Keys(findings) {
      MergeGrows(Group(findings, k), f);
      assert Group(findings, k) + [] == Group(findings, k);
    }
    if Key(f) !in Keys(findings) {
      GroupGrows(findings, f, Key(f));
    }
  }

  lemma SeenNext(findings: seq<Finding>, f: Finding, seen: map<string, Finding>)
    requires Seen(findings, seen) && Counted(f)
    ensures Seen(findings + [f], seen[Key(f) := if Key(f) in seen then Merge(seen[Key(f)], f) else f])
  {
    hide Merge, Key, Keys, MergeAll, Group;
    var next := seen[Key(f) := if Key(f) in seen then Merge(seen[Key(f)], f) else f];
    forall k
      ensures k in next <==> k in Keys(findings + [f])
      ensures k in next ==> next[k] == MergeAll(Group(findings + [f], k))
    {
      GroupAfter(findings, f, k);
    }
  }

  method DedupeFindings(findings: seq<Finding>) returns (out: seq<Finding>)
    ensures out == Deduped(findings)
  {
    hide Merge, Norm, Seen, Group, MergeAll, Keys;
    var seen: map<string, Finding> := map[];
    var order: seq<string> := [];
    SeenNone(findings[..0], seen);
    for i := 0 to |findings|
      invariant Seen(findings[..i], seen)
      invariant order == Keys(findings[..i])
      invariant forall k :: k in seen <==> k in order
    {
      var finding := findings[i];
      assert findings[..i + 1] == findings[..i] + [finding];
      GroupGrows(findings[..i], finding, Norm(finding.id));
      if finding.id == "" {
        SeenSkips(findings[..i], finding, seen);
      } else {
        SeenNext(findings[..i], finding, seen);
        var key := Norm(finding.id);
        if key in seen {
          seen := seen[key := Merge(seen[key], finding)];
        } else {
          seen := seen[key := finding];
          order := order + [key];
        }
      }
    }
    assert findings[..|findings|] == findings;
    out := InOrder(findings, seen, order);
  }

  method InOrder(ghost findings: seq<Finding>, seen: map<string, Finding>, order: seq<string>)
    returns (out: seq<Finding>)
    requires Seen(findings, seen) && order == Keys(findings)
    ensures out == Deduped(findings)
  {
    hide Seen, Group, MergeAll, Keys;
    out := [];
    for i := 0 to |order|
      invariant |out| == i && forall j :: 0 <= j < i ==> out[j] == Deduped(findings)[j]
    {
      SeenAt(findings, seen, order[i]);
      out := out + [seen[order[i]]];
    }
  }

  lemma SeenNone(findings: seq<Finding>, seen: map<string, Finding>)
    requires findings == [] && seen == map[]
    ensures Seen(findings, seen) && Keys(findings) == []
  {
  }

  lemma SeenAt(findings: seq<Finding>, seen: map<string, Finding>, key: string)
    requires Seen(findings, seen) && key in Keys(findings)
    ensures key in seen && seen[key] == MergeAll(Group(findings, key))
  {
  }

  // ----- what a merged group carries -----

  /** Position of the first finding with the highest score. */
  ghost predicate Wins(group: seq<Finding>, w: nat) {
    && w < |group|
    && (forall j :: 0 <= j < |group| ==> group[j].score <= group[w].score)
    && (forall j :: 0 <= j < w ==> group[j].score < group[w].score)
  }

  function FirstStatus(group: seq<Finding>): string {
    if group == [] then ""
    else
      var earlier := FirstStatus(group[..|group| - 1]);
      if earlier != "" then earlier else group[|group| - 1].status
  }

  /** `r` takes its identity from the winner; its confidence and status look only at the
      winner and what follows it. */
  ghost predicate CarriesWinner(group: seq<Finding>, w: nat, r: Finding) {
    && Wins(group, w)
    && r.id == group[w].id && r.score == group[w].score && r.severity == group[w].severity
    && r.details == group[w].details
    && r.status == FirstStatus(group[w..])
    && (forall j :: w <= j < |group| ==> group[j].confidence <= r.confidence)
    && (exists j :: w <= j < |group| && group[j].confidence == r.confidence)
  }

  lemma WinnerStep(group: seq<Finding>, f: Finding, w: nat, r: Finding)
    requires CarriesWinner(group, w, r)
    ensures CarriesWinner(group + [f], if f.score > r.score then |group| else w, Merge(r, f))
  {
    if f.score > r.score {
      NewWinner(group, f, r);
    } else {
      OldWinner(group, f, w, r);
    }
  }

  lemma NewWinner(group: seq<Finding>, f: Finding, r: Finding)
    requires f.score > r.score && forall j :: 0 <= j < |group| ==> group[j].score <= r.score
    ensures CarriesWinner(group + [f], |group|, Merge(r, f))
  {
    hide Union, PreviewOf;
    var longer := group + [f];
    assert longer[|group|] == f;
    assert longer[|group|..] == [f] && [f][..0] == [];
    assert FirstStatus([f]) == f.status;
    assert Wins(longer, |group|);
  }

  lemma OldWinner(group: seq<Finding>, f: Finding, w: nat, r: Finding)
    requires CarriesWinner(group, w, r) && f.score <= r.score
    ensures CarriesWinner(group + [f], w, Merge(r, f))
  {
    hide Union, PreviewOf;
    var longer, tail := group + [f], group[w..] + [f];
    assert longer[w..] == tail && tail[..|tail| - 1] == group[w..];
    var j :| w <= j < |group| && group[j].confidence == r.confidence;
    assert longer[j] == group[j] && longer[|group|] == f;
  }

  /** Main result: score, identity and details of a merged group are those of its first
      highest-scoring finding. The confidence is the highest from that finding on, which
      need not be the highest of the group. */
  lemma {:induction false} MergedWinner(group: seq<Finding>) returns (w: nat)
    requires group != []
    ensures CarriesWinner(group, w, MergeAll(group))
  {
    hide Merge, CarriesWinner;
    if |group| == 1 {
      w := 0;
      LoneWinner(group);
    } else {
      var front, f := group[..|group| - 1], group[|group| - 1];
      var r := MergeAll(front);
      w := MergedWinner(front);
      WinnerStep(front, f, w, r);
      assert group == front + [f];
      w := if f.score > r.score then |front| else w;
    }
  }

  lemma LoneWinner(group: seq<Finding>)
    requires |group| == 1
    ensures CarriesWinner(group, 0, group[0])
  {
    assert group[0..] == group && group[..0] == [];
  }

  /** A later finding that outscores a more confident one lowers the confidence. */
  lemma ConfidenceNotMaximal(f: Finding)
    requires f.confidence > 0.0
    ensures var g := f.(score := f.score + 1, confidence := 0.0);
        MergeAll([f, g]).confidence < f.confidence
  {
    var g := f.(score := f.score + 1, confidence := 0.0);
    MergeGrows([f], g);
  }

  function JoinedEvidence(group: seq<Finding>): seq<Evidence> {
    if group == [] then [] else JoinedEvidence(group[..|group| - 1]) + group[|group| - 1].evidence
  }

  /** Main result: the evidence of a merged group is that of its members, in order. */
  lemma {:induction false} MergedEvidence(group: seq<Finding>)
    requires group != []
    ensures MergeAll(group).evidence == JoinedEvidence(group)
  {
    if |group| == 1 {
      assert JoinedEvidence(group[..0]) == [];
    } else {
      MergedEvidence(group[..|group| - 1]);
    }
  }

  function Joined(group: seq<Finding>, list: Finding -> seq<string>): seq<string> {
    if group == [] then [] else Joined(group[..|group| - 1], list) + list(group[|group| - 1])
  }

  /** A list that merging unites is, for a whole group, the cleaned union in order of first
      occurrence. */
  lemma {:induction false} MergedList(group: seq<Finding>, list: Finding -> seq<string>)
    requires |group| > 1
    requires forall a, b :: list(Merge(a, b)) == Dedupe(list(a) + list(b))
    ensures list(MergeAll(group)) == Dedupe(Joined(group, list))
  {
    hide Merge;
    var front, last := group[..|group| - 1], group[|group| - 1];
    var r := MergeAll(front);
    assert list(MergeAll(group)) == Dedupe(list(r) + list(last));
    if |front| == 1 {
      assert Joined(front[..0], list) == [];
      assert Joined(front, list) == list(r);
    } else {
      MergedList(front, list);
      DedupePrefix(Joined(front, list), list(last));
    }
  }

  /** Main result: each list of a merged group is the cleaned union of its members' lists of
      that name, in order of first occurrence. */
  lemma MergedLists(group: seq<Finding>)
    requires |group| > 1
    ensures var r := MergeAll(group);
        && r.signals == Dedupe(Joined(group, (f: Finding) => f.signals))
        && r.tools == Dedupe(Joined(group, (f: Finding) => f.tools))
        && r.capabilities == Dedupe(Joined(group, (f: Finding) => f.capabilities))
        && r.sensitive == Dedupe(Joined(group, (f: Finding) => f.sensitive))
        && r.impacted == Dedupe(Joined(group, (f: Finding) => f.impacted))
  {
    hide Dedupe, PreviewOf, MergeAll;
    MergedList(group, (f: Finding) => f.signals);
    MergedList(group, (f: Finding) => f.tools);
    MergedList(group, (f: Finding) => f.capabilities);
    MergedList(group, (f: Finding) => f.sensitive);
    MergedList(group, (f: Finding) => f.impacted);
  }

  /** The remediation preview of a merged group, in terms of the merged finding: approval is
      due for a critical or high severity, the expected drop is the score up to 40, and the
      blocking evidence names each reference once. */
  lemma MergedPreview(group: seq<Finding>)
    requires |group| > 1
    ensures var r := MergeAll(group);
        && (r.preview.approvalRequired <==> r.severity in ["critical", "high"])
        && r.preview.riskDrop <= 40 && r.preview.riskDrop <= r.score && r.preview.riskDrop in [40, r.score]
        && r.preview.impactedCount == |r.impacted|
        && Distinct(r.preview.blockingEvidence)
        && forall v :: v in r.preview.blockingEvidence <==> v != "" && exists e :: e in r.evidence && Trim(e.ref) == v
  {
    var r := MergeAll(group);
    assert r.preview == PreviewOf(r);
    BlockingExact(r.evidence);
    hide Dedupe, MergeAll, Trim, Merge, Refs;
  }

  lemma BlockingExact(evidence: seq<Evidence>)
    ensures Distinct(Dedupe(Refs(evidence)))
    ensures forall v :: v in Dedupe(Refs(evidence)) <==> v != "" && exists e :: e in evidence && Trim(e.ref) == v
  {
    hide Trim;
    forall v
      ensures v in Dedupe(Refs(evidence)) <==> v != "" && exists e :: e in evidence && Trim(e.ref) == v
    {
      if e :| e in evidence && Trim(e.ref) == v && v != "" {
        var i :| 0 <= i < |evidence| && evidence[i] == e;
        assert Trim(Refs(evidence)[i]) == v;
      }
      if v in Dedupe(Refs(evidence)) {
        var i :| 0 <= i < |Refs(evidence)| && Trim(Refs(evidence)[i]) == v;
        assert evidence[i] in evidence;
      }
    }
  }

  /** Which findings are merged: those with an ID, and with one that is spelled alike up to
      case and outer white space. */
  lemma {:induction false} GroupExact(findings: seq<Finding>, key: string, f: Finding)
    ensures f in Group(findings, key) <==> f in findings && f.id != "" && Norm(f.id) == key
  {
    hide Norm;
    if findings != [] {
      var front, last := findings[..|findings| - 1], findings[|findings| - 1];
      assert findings == front + [last];
      GroupExact(front, key, f);
    }
  }

  // ----- deduping in stages -----

  lemma {:induction false} GroupAppend(a: seq<Finding>, b: seq<Finding>, key: string)
    ensures Group(a + b, key) == Group(a, key) + Group(b, key)
  {
    if b == [] {
      assert a + b == a;
    } else {
      assert (a + b)[..|a + b| - 1] == a + b[..|b| - 1];
      GroupAppend(a, b[..|b| - 1], key);
    }
  }

  lemma MergedKey(findings: seq<Finding>, key: string)
    requires key in Keys(findings)
    ensures var r := MergeAll(Group(findings, key));
        Counted(r) && Key(r) == key
  {
    var group := Group(findings, key);
    var w := MergedWinner(group);
    GroupMember(findings, key, w);
  }

  ghost predicate Listed(out: seq<Finding>, ks: seq<string>) {
    && |out| == |ks| && Distinct(ks)
    && forall i :: 0 <= i < |out| ==> Counted(out[i]) && Key(out[i]) == ks[i]
  }

  lemma ListedFront(out: seq<Finding>, ks: seq<string>)
    requires Listed(out, ks) && out != []
    ensures var last := |out| - 1;
        && Listed(out[..last], ks[..last])
        && Counted(out[last]) && Key(out[last]) == ks[last] && ks[last] !in ks[..last]
  {
    hide Key;
    var last := |out| - 1;
    forall i | 0 <= i < last
      ensures ks[..last][i] == ks[i] && ks[i] != ks[last]
    {
    }
  }

  /** A merged list holds one finding per key. */
  lemma {:induction false} KeysOfListed(out: seq<Finding>, ks: seq<string>)
    requires Listed(out, ks)
    ensures Keys(out) == ks
  {
    if out == [] {
      assert ks == [];
    } else {
      hide Key, Group, Keys, Counted, Distinct;
      var last := |out| - 1;
      ListedFront(out, ks);
      hide Listed;
      KeysOfListed(out[..last], ks[..last]);
      KeysOfNext(out[..last], out[last], out);
      assert ks == ks[..last] + [ks[last]];
    }
  }

  lemma KeysOfNext(front: seq<Finding>, f: Finding, all: seq<Finding>)
    requires Counted(f) && Key(f) !in Keys(front)
    requires all != [] && front == all[..|all| - 1] && f == all[|all| - 1]
    ensures Keys(all) == Keys(front) + [Key(f)]
  {
    hide Key, Group, Distinct;
  }

  lemma {:induction false} GroupOfListed(out: seq<Finding>, ks: seq<string>, key: string)
    requires Listed(out, ks)
    ensures key !in ks ==> Group(out, key) == []
    ensures key in ks ==> exists i :: 0 <= i < |ks| && ks[i] == key && Group(out, key) == [out[i]]
  {
    hide Key;
    if out != [] {
      var last := |out| - 1;
      GroupOfListed(out[..last], ks[..last], key);
      assert ks == ks[..last] + [ks[last]];
      if key in ks[..last] {
        var i :| 0 <= i < last && ks[..last][i] == key && Group(out[..last], key) == [out[..last][i]];
        assert ks[i] == key && ks[last] != key;
        assert Group(out, key) == [out[i]];
      } else if key == ks[last] {
        assert Group(out, key) == [out[last]];
      }
    }
  }

  lemma GroupOfDeduped(findings: seq<Finding>, key: string)
    ensures Keys(Deduped(findings)) == Keys(findings)
    ensures key in Keys(findings) ==> Group(Deduped(findings), key) == [MergeAll(Group(findings, key))]
    ensures key !in Keys(findings) ==> Group(Deduped(findings), key) == []
  {
    var ks := Keys(findings);
    forall i | 0 <= i < |ks|
      ensures Counted(Deduped(findings)[i]) && Key(Deduped(findings)[i]) == ks[i]
    {
      MergedKey(findings, ks[i]);
    }
    KeysOfListed(Deduped(findings), ks);
    GroupOfListed(Deduped(findings), ks, key);
  }

  lemma {:induction false} MergeAppend(g: seq<Finding>, h: seq<Finding>)
    requires g != []
    ensures MergeAll([MergeAll(g)] + h) == MergeAll(g + h)
  {
    hide Merge;
    if h == [] {
      assert [MergeAll(g)] + h == [MergeAll(g)] && g + h == g;
    } else {
      assert ([MergeAll(g)] + h)[..|h|] == [MergeAll(g)] + h[..|h| - 1];
      assert (g + h)[..|g + h| - 1] == g + h[..|h| - 1];
      MergeAppend(g, h[..|h| - 1]);
    }
  }

  lemma {:induction false} KeysAppend(a: seq<Finding>, c: seq<Finding>, b: seq<Finding>)
    requires Keys(a) == Keys(c)
    ensures Keys(a + b) == Keys(c + b)
  {
    hide Key, Group, Keys;
    if b == [] {
      assert a + b == a && c + b == c;
    } else {
      var front, f := b[..|b| - 1], b[|b| - 1];
      KeysAppend(a, c, front);
      GroupGrows(a + front, f, "");
      GroupGrows(c + front, f, "");
      assert a + b == a + front + [f] && c + b == c + front + [f];
    }
  }

  /** Main result: deduping a list to which already deduped findings were prepended gives
      what deduping everything at once would. */
  lemma DedupedPrefix(a: seq<Finding>, b: seq<Finding>)
    ensures Deduped(Deduped(a) + b) == Deduped(a + b)
  {
    hide Key, Merge;
    var d := Deduped(a);
    GroupOfDeduped(a, "");
    KeysAppend(d, a, b);
    forall k | k in Keys(a + b)
      ensures Group(d + b, k) != [] && MergeAll(Group(d + b, k)) == MergeAll(Group(a + b, k))
    {
      GroupAppend(a, b, k);
      GroupAppend(d, b, k);
      GroupOfDeduped(a, k);
      if k in Keys(a) {
        MergeAppend(Group(a, k), Group(b, k));
      } else {
        assert Group(a, k) == [];
      }
    }
  }

  /** Main result: deduping twice equals deduping once. */
  lemma DedupedTwice(findings: seq<Finding>)
    ensures Deduped(Deduped(findings)) == Deduped(findings)
  {
    DedupedPrefix(findings, []);
    assert Deduped(findings) + [] == Deduped(findings) && findings + [] == findings;
  }

  // ----- conservation -----

  /** All evidence of the findings that have an ID. */
  function AllEvidence(findings: seq<Finding>): multiset<Evidence> {
    if findings == [] then multiset{}
    else
      var last := findings[|findings| - 1];
      AllEvidence(findings[..|findings| - 1]) + (if Counted(last) then multiset(last.evidence) else multiset{})
  }

  lemma AllEvidenceGrows(findings: seq<Finding>, f: Finding)
    ensures AllEvidence(findings + [f]) ==
        AllEvidence(findings) + (if Counted(f) then multiset(f.evidence) else multiset{})
  {
    assert (findings + [f])[..|findings|] == findings;
  }

  lemma {:induction false} EvidenceReplaced(out: seq<Finding>, i: nat, f: Finding, more: multiset<Evidence>)
    requires i < |out| && Counted(out[i]) && Counted(f)
    requires multiset(f.evidence) == multiset(out[i].evidence) + more
    ensures AllEvidence(out[i := f]) == AllEvidence(out) + more
  {
    var front, last := out[..|out| - 1], out[|out| - 1];
    assert out == front + [last];
    AllEvidenceGrows(front, last);
    if i == |front| {
      assert out[i := f] == front + [f];
      AllEvidenceGrows(front, f);
    } else {
      assert out[i := f] == front[i := f] + [last];
      AllEvidenceGrows(front[i := f], last);
      hide AllEvidence;
      EvidenceReplaced(front, i, f, more);
    }
  }

  // One more finding is skipped, appends itself, or merges into the entry of its key.

  lemma DedupedSkips(findings: seq<Finding>, f: Finding)
    requires !Counted(f)
    ensures Deduped(findings + [f]) == Deduped(findings)
  {
    hide Key, Merge, Group, MergeAll;
    GroupGrows(findings, f, "");
    forall k
      ensures Group(findings + [f], k) == Group(findings, k)
    {
      GroupGrows(findings, f, k);
    }
  }

  lemma DedupedAppends(findings: seq<Finding>, f: Finding)
    requires Counted(f) && Key(f) !in Keys(findings)
    ensures Deduped(findings + [f]) == Deduped(findings) + [f]
  {
    hide Key, Merge, Group, MergeAll, Keys;
    var ks := Keys(findings);
    GroupGrows(findings, f, Key(f));
    GroupAfter(findings, f, Key(f));
    forall i | 0 <= i < |ks|
      ensures Deduped(findings + [f])[i] == Deduped(findings)[i]
    {
      GroupAfter(findings, f, ks[i]);
      assert ks[i] in ks;
    }
  }

  lemma DedupedUpdates(findings: seq<Finding>, f: Finding, i: nat)
    requires Counted(f) && i < |Keys(findings)| && Keys(findings)[i] == Key(f)
    ensures Deduped(findings + [f]) == Deduped(findings)[i := Merge(Deduped(findings)[i], f)]
  {
    hide Key, Merge, Group, MergeAll, Keys;
    var ks := Keys(findings);
    GroupGrows(findings, f, Key(f));
    forall j | 0 <= j < |ks|
      ensures Deduped(findings + [f])[j] == if j == i then Merge(Deduped(findings)[i], f) else Deduped(findings)[j]
    {
      GroupAfter(findings, f, ks[j]);
      assert ks[j] in ks;
    }
  }

  /** Main result: no evidence is lost or invented: what leaves is what came in with an ID. */
  lemma {:induction false} EvidenceConserved(findings: seq<Finding>)
    ensures AllEvidence(Deduped(findings)) == AllEvidence(findings)
  {
    hide Key;
    if findings != [] {
      var front, f := findings[..|findings| - 1], findings[|findings| - 1];
      assert findings == front + [f];
      EvidenceConserved(front);
      if !Counted(f) {
        DedupedSkips(front, f);
      } else if Key(f) in Keys(front) {
        var i :| 0 <= i < |Keys(front)| && Keys(front)[i] == Key(f);
        DedupedUpdates(front, f, i);
        var d := Deduped(front)[i];
        MergedKey(front, Key(f));
        assert Merge(d, f).evidence == d.evidence + f.evidence;
        EvidenceReplaced(Deduped(front), i, Merge(d, f), multiset(f.evidence));
      } else {
        DedupedAppends(front, f);
        AllEvidenceGrows(Deduped(front), f);
      }
    }
  }
}
