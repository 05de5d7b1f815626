/** Relationship grants: the level-by-level walk over stored tuples, and the theorem that
    it decides relational composition. */
module Walk {
  import opened Text
  import opened Lists
  import opened Policy

  const OWNS := "owns"
  const MANAGES := "manages"
  const DELEGATED_ADMIN := "delegated_admin"
  const MEMBER_OF := "member_of"

  predicate Supported(relation: string) {
    relation == OWNS || relation == MANAGES || relation == DELEGATED_ADMIN || relation == MEMBER_OF
  }

  // ----- the relationship store -----

  datatype Node = Node(kind: string, id: string)

  datatype Row = Row(subject: Node, relation: string, target: Node, expiresAt: Option<int>)

  /** Blank fields match anything. */
  datatype Filter = Filter(subject: Node, relation: string, target: Node)

  /** One snapshot: the rows in listing order, the clock, and which queries fail. */
  datatype Store = Store(rows: seq<Row>, now: int, fails: Filter -> bool)

  const ANY := Node("", "")

  function CleanNode(n: Node): Node {
    Node(Norm(n.kind), Trim(n.id))
  }

  predicate Ready(n: Node) {
    CleanNode(n) == n && n.kind != "" && n.id != ""
  }

  /** The write-time clean-up of a tuple. */
  function CleanRow(row: Row): Option<Row> {
    var clean := Row(CleanNode(row.subject), Norm(row.relation), CleanNode(row.target), row.expiresAt);
    if clean.subject.kind == "" || clean.subject.id == "" || !Supported(clean.relation)
      || clean.target.kind == "" || clean.target.id == ""
    then None
    else Some(clean)
  }

  predicate StoredRow(row: Row) {
    Ready(row.subject) && Supported(row.relation) && Ready(row.target)
  }

  ghost predicate ValidStore(store: Store) {
    forall row :: row in store.rows ==> StoredRow(row)
  }

  lemma CleanRowIsStored(row: Row)
    ensures CleanRow(row).Some? ==> StoredRow(CleanRow(row).value)
  {
    NormIdempotent(row.subject.kind);
    NormIdempotent(row.target.kind);
  }

  /** Exactly which tuples can be written, as given, and what is stored: one of the four
      relations between two named objects, kinds and relation in lower case. */
  lemma RowWritten(row: Row)
    ensures CleanRow(row).Some? <==>
        && Norm(row.subject.kind) != "" && Trim(row.subject.id) != ""
        && Norm(row.relation) in ["owns", "manages", "delegated_admin", "member_of"]
        && Norm(row.target.kind) != "" && Trim(row.target.id) != ""
    ensures CleanRow(row).Some? ==>
        var c := CleanRow(row).value;
        && c.subject.kind == Norm(row.subject.kind) && c.subject.id == Trim(row.subject.id)
        && c.relation == Norm(row.relation) && c.expiresAt == row.expiresAt
        && c.target.kind == Norm(row.target.kind) && c.target.id == Trim(row.target.id)
  {
    hide Norm, Trim;
  }

  predicate FieldMatches(wanted: string, actual: string) {
    wanted == "" || wanted == actual
  }

  predicate Selects(f: Filter, row: Row, now: int) {
    && FieldMatches(Norm(f.subject.kind), row.subject.kind)
    && FieldMatches(Trim(f.subject.id), row.subject.id)
    && FieldMatches(Norm(f.relation), row.relation)
    && FieldMatches(Norm(f.target.kind), row.target.kind)
    && FieldMatches(Trim(f.target.id), row.target.id)
    && (row.expiresAt.Some? ==> row.expiresAt.value > now)
  }

  function Select(rows: seq<Row>, f: Filter, now: int): (r: seq<Row>)
    ensures forall row :: row in r <==> row in rows && Selects(f, row, now)
  {
    if rows == [] then []
    else
      var rest := Select(rows[1..], f, now);
      if Selects(f, rows[0], now) then [rows[0]] + rest else rest
  }

  function Truncate(rows: seq<Row>, limit: int): seq<Row> {
    if limit > 0 && |rows| > limit then rows[..limit] else rows
  }

  function List(store: Store, f: Filter, limit: int): Result<seq<Row>> {
    if store.fails(f) then Err("query failed")
    else if Norm(f.relation) != "" && !Supported(Norm(f.relation)) then Err("invalid relation value")
    else Ok(Truncate(Select(store.rows, f, store.now), limit))
  }

  /** Exactly when a listing fails: its query does, or it asks for no relation there is. */
  lemma ListFails(store: Store, f: Filter, limit: int)
    ensures List(store, f, limit).Err? <==>
        store.fails(f) || Norm(f.relation) !in ["", "owns", "manages", "delegated_admin", "member_of"]
  {
    hide Norm, Truncate, Select;
  }

  /** Exactly which tuples a listing selects, for a filter as written: the live ones that agree
      with each of its fields that is not blank. */
  lemma SelectsExact(f: Filter, row: Row, now: int)
    ensures Selects(f, row, now) <==>
        && (Norm(f.subject.kind) in ["", row.subject.kind]) && (Trim(f.subject.id) in ["", row.subject.id])
        && (Norm(f.relation) in ["", row.relation])
        && (Norm(f.target.kind) in ["", row.target.kind]) && (Trim(f.target.id) in ["", row.target.id])
        && (row.expiresAt.None? || now < row.expiresAt.value)
  {
    hide Norm, Trim;
  }

  // ----- the walk -----

  function From(n: Node, relation: string): Filter {
    Filter(n, relation, ANY)
  }

  function Key(n: Node): string {
    n.kind + "|" + n.id
  }

  /** Targets of listed rows, keyed by `Key`; a later row overwrites an earlier one. */
  function AddTargets(next: map<string, Node>, rows: seq<Row>): map<string, Node> {
    if rows == [] then next
    else
      var before := AddTargets(next, rows[..|rows| - 1]);
      var target := CleanNode(rows[|rows| - 1].target);
      if target.kind == "" || target.id == "" then before else before[Key(target) := target]
  }

  function NextNodes(store: Store, limit: int, nodes: seq<Node>, relation: string): Result<map<string, Node>> {
    if nodes == [] then Ok(map[])
    else
      var before := NextNodes(store, limit, nodes[..|nodes| - 1], relation);
      if before.Err? then before
      else
        var rows := List(store, From(nodes[|nodes| - 1], relation), limit);
        if rows.Err? then Err(rows.message) else Ok(AddTargets(before.value, rows.value))
  }

  function LastHop(store: Store, limit: int, nodes: seq<Node>, relation: string, target: Node): Result<bool> {
    if nodes == [] then Ok(false)
    else
      var rows := List(store, Filter(nodes[0], relation, target), limit);
      if rows.Err? then Err(rows.message)
      else if rows.value != [] then Ok(true)
      else LastHop(store, limit, nodes[1..], relation, target)
  }

  ghost predicate ListsValues(order: seq<Node>, next: map<string, Node>) {
    Elements(order) == next.Values
  }

  /** The query the walk asks of one frontier node. */
  function Asked(n: Node, relations: seq<string>, target: Node): Filter
    requires relations != []
  {
    Filter(n, relations[0], if |relations| == 1 then target else ANY)
  }

  /** The results the walk can return from a frontier: Go ranges over the next frontier
      in an arbitrary order. */
  ghost predicate WalkMay(
      store: Store, limit: int, nodes: seq<Node>, relations: seq<string>, target: Node, r: Result<bool>)
    decreases |relations|
  {
    if relations == [] then r == Ok(false)
    else if |relations| == 1 then r == LastHop(store, limit, nodes, relations[0], target)
    else
      match NextNodes(store, limit, nodes, relations[0])
      case Err(m) => r == Err(m)
      case Ok(next) =>
        if next == map[] then r == Ok(false)
        else exists order ::
            ListsValues(order, next) && WalkMay(store, limit, order, relations[1..], target, r)
  }

  /** A "no" means that every frontier node was asked and answered: a failing query is an error,
      never a denial. */
  lemma NoMeansAnswered(store: Store, limit: int, nodes: seq<Node>, relations: seq<string>, target: Node)
    requires relations != [] && WalkMay(store, limit, nodes, relations, target, Ok(false))
    ensures forall n :: n in nodes ==> !store.fails(Asked(n, relations, target))
  {
    if |relations| == 1 {
      LastHopAnswered(store, limit, nodes, relations[0], target);
    } else {
      NextAnswered(store, limit, nodes, relations[0]);
    }
  }

  lemma {:induction false} LastHopAnswered(store: Store, limit: int, nodes: seq<Node>, relation: string, target: Node)
    requires LastHop(store, limit, nodes, relation, target) == Ok(false)
    ensures forall n :: n in nodes ==> !store.fails(Filter(n, relation, target))
  {
    hide Truncate, Select, Norm;
    if nodes != [] {
      LastHopAnswered(store, limit, nodes[1..], relation, target);
      assert nodes == [nodes[0]] + nodes[1..];
    }
  }

  lemma {:induction false} NextAnswered(store: Store, limit: int, nodes: seq<Node>, relation: string)
    requires NextNodes(store, limit, nodes, relation).Ok?
    ensures forall n :: n in nodes ==> !store.fails(From(n, relation))
  {
    hide AddTargets, Truncate, Select, Norm;
    if nodes != [] {
      NextAnswered(store, limit, nodes[..|nodes| - 1], relation);
      assert nodes == nodes[..|nodes| - 1] + [nodes[|nodes| - 1]];
    }
  }

  /** And an error means that some query failed, on paths of supported relations. */
  lemma {:induction false} ErrorMeansFailure(
      store: Store, limit: int, nodes: seq<Node>, relations: seq<string>, target: Node, r: Result<bool>)
    requires AllSupported(relations) && WalkMay(store, limit, nodes, relations, target, r) && r.Err?
    ensures exists f :: store.fails(f)
    decreases |relations|
  {
    hide AddTargets;
    if |relations| == 1 {
      LastHopFails(store, limit, nodes, relations[0], target);
    } else if NextNodes(store, limit, nodes, relations[0]).Err? {
      NextFails(store, limit, nodes, relations[0]);
    } else {
      var next := NextNodes(store, limit, nodes, relations[0]).value;
      var order :| ListsValues(order, next) && WalkMay(store, limit, order, relations[1..], target, r);
      ErrorMeansFailure(store, limit, order, relations[1..], target, r);
    }
  }

  lemma {:induction false} LastHopFails(store: Store, limit: int, nodes: seq<Node>, relation: string, target: Node)
    requires Supported(relation) && LastHop(store, limit, nodes, relation, target).Err?
    ensures exists f :: store.fails(f)
  {
    SupportedNormal(relation);
    hide Norm;
    if List(store, Filter(nodes[0], relation, target), limit).Err? {
      assert store.fails(Filter(nodes[0], relation, target));
    } else {
      LastHopFails(store, limit, nodes[1..], relation, target);
    }
  }

  lemma {:induction false} NextFails(store: Store, limit: int, nodes: seq<Node>, relation: string)
    requires Supported(relation) && NextNodes(store, limit, nodes, relation).Err?
    ensures exists f :: store.fails(f)
  {
    SupportedNormal(relation);
    hide Norm, AddTargets;
    var last := |nodes| - 1;
    if NextNodes(store, limit, nodes[..last], relation).Err? {
      NextFails(store, limit, nodes[..last], relation);
    } else {
      assert store.fails(From(nodes[last], relation));
    }
  }

  method EvaluatePath(store: Store, limit: int, start: Node, target: Node, relations: seq<string>)
    returns (r: Result<bool>)
    ensures WalkMay(store, limit, [start], relations, target, r)
  {
    if |relations| == 0 {
      return Ok(false);
    }
    var nodes := [start];
    var index := 0;
    while index < |relations|
      invariant 0 <= index <= |relations|
      invariant forall w :: WalkMay(store, limit, nodes, relations[index..], target, w) ==>
          WalkMay(store, limit, [start], relations, target, w)
    {
      var relation := relations[index];
      var tail := relations[index..];
      assert tail[0] == relation && tail[1..] == relations[index + 1..];
      if index == |relations| - 1 {
        r := CheckLastHop(store, limit, nodes, relation, target);
        assert WalkMay(store, limit, nodes, tail, target, r);
        return;
      }
      var listed := CollectNext(store, limit, nodes, relation);
      if listed.Err? {
        r := Err(listed.message);
        assert WalkMay(store, limit, nodes, tail, target, r);
        return;
      }
      if |listed.value| == 0 {
        r := Ok(false);
        assert WalkMay(store, limit, nodes, tail, target, r);
        return;
      }
      var order := ValuesInSomeOrder(listed.value);
      forall w | WalkMay(store, limit, order, relations[index + 1..], target, w)
        ensures WalkMay(store, limit, nodes, tail, target, w)
      {
      }
      nodes := order;
      index := index + 1;
    }
    r := Ok(false);
  }

  method CheckLastHop(store: Store, limit: int, nodes: seq<Node>, relation: string, target: Node)
    returns (r: Result<bool>)
    ensures r == LastHop(store, limit, nodes, relation, target)
  {
    for i := 0 to |nodes|
      invariant LastHop(store, limit, nodes, relation, target) == LastHop(store, limit, nodes[i..], relation, target)
    {
      var rows := List(store, Filter(nodes[i], relation, target), limit);
      if rows.Err? {
        return Err(rows.message);
      }
      if |rows.value| > 0 {
        return Ok(true);
      }
      assert nodes[i..][1..] == nodes[i + 1..];
    }
    return Ok(false);
  }

  method CollectNext(store: Store, limit: int, nodes: seq<Node>, relation: string)
    returns (r: Result<map<string, Node>>)
    ensures r == NextNodes(store, limit, nodes, relation)
  {
    hide List, CleanNode, Key, From;
    var next: map<string, Node> := map[];
    for i := 0 to |nodes|
      invariant NextNodes(store, limit, nodes[..i], relation) == Ok(next)
    {
      assert nodes[..i + 1][..i] == nodes[..i];
      var rows := List(store, From(nodes[i], relation), limit);
      if rows.Err? {
        FailureSticks(store, limit, nodes, relation, i + 1);
        return Err(rows.message);
      }
      ghost var before := next;
      for j := 0 to |rows.value|
        invariant next == AddTargets(before, rows.value[..j])
      {
        assert rows.value[..j + 1][..j] == rows.value[..j];
        var node := CleanNode(rows.value[j].target);
        if node.kind != "" && node.id != "" {
          next := next[Key(node) := node];
        }
      }
      assert rows.value[..|rows.value|] == rows.value;
    }
    assert nodes[..|nodes|] == nodes;
    return Ok(next);
  }

  lemma {:induction false} FailureSticks(store: Store, limit: int, nodes: seq<Node>, relation: string, i: nat)
    requires i <= |nodes| && NextNodes(store, limit, nodes[..i], relation).Err?
    ensures NextNodes(store, limit, nodes, relation) == NextNodes(store, limit, nodes[..i], relation)
    decreases |nodes|
  {
    if i == |nodes| {
      assert nodes[..i] == nodes;
    } else {
      assert nodes[..|nodes| - 1][..i] == nodes[..i];
      FailureSticks(store, limit, nodes[..|nodes| - 1], relation, i);
    }
  }

  method ValuesInSomeOrder(next: map<string, Node>) returns (order: seq<Node>)
    ensures ListsValues(order, next)
  {
    order := [];
    var todo := next.Keys;
    while todo != {}
      invariant todo <= next.Keys
      invariant forall n :: n in order ==> n in next.Values
      invariant forall k :: k in next && k !in todo ==> next[k] in order
    {
      var k :| k in todo;
      todo := todo - {k};
      order := order + [next[k]];
    }
  }

  // ----- what the walk decides -----

  /** A live tuple leads from `n` to `m`. */
  ghost predicate Edge(store: Store, n: Node, relation: string, m: Node) {
    exists row :: row in store.rows && IsEdge(row, store.now, n, relation, m)
  }

  predicate IsEdge(row: Row, now: int, n: Node, relation: string, m: Node) {
    row.subject == n && row.relation == relation && row.target == m
    && (row.expiresAt.Some? ==> row.expiresAt.value > now)
  }

  /** Relational composition of the path's relations. */
  ghost predicate Chain(store: Store, n: Node, relations: seq<string>, target: Node)
    decreases |relations|
  {
    if relations == [] then false
    else if |relations| == 1 then Edge(store, n, relations[0], target)
    else exists m :: Edge(store, n, relations[0], m) && Chain(store, m, relations[1..], target)
  }

  /** Live stored tuples with these relations, each leading to where the next one starts. */
  ghost predicate Links(store: Store, rows: seq<Row>, relations: seq<string>) {
    && |rows| == |relations|
    && (forall i :: 0 <= i < |rows| ==>
          rows[i] in store.rows && rows[i].relation == relations[i] && Live(store, rows[i]))
    && (forall i :: 0 < i < |rows| ==> rows[i].subject == rows[i - 1].target)
  }

  predicate Live(store: Store, row: Row) {
    row.expiresAt.None? || store.now < row.expiresAt.value
  }

  /** A chain can be laid out as tuples, one for each relation. */
  lemma {:induction false} ChainToRows(store: Store, n: Node, relations: seq<string>, target: Node)
    returns (rows: seq<Row>)
    requires Chain(store, n, relations, target)
    ensures rows != [] && Links(store, rows, relations)
    ensures rows[0].subject == n && rows[|rows| - 1].target == target
    decreases |relations|
  {
    if |relations| == 1 {
      var row :| row in store.rows && IsEdge(row, store.now, n, relations[0], target);
      rows := [row];
    } else {
      var m :| Edge(store, n, relations[0], m) && Chain(store, m, relations[1..], target);
      var row :| row in store.rows && IsEdge(row, store.now, n, relations[0], m);
      var rest := ChainToRows(store, m, relations[1..], target);
      rows := [row] + rest;
      forall i | 0 < i < |rows|
        ensures rows[i] in store.rows && rows[i].relation == relations[i] && Live(store, rows[i])
        ensures rows[i].subject == rows[i - 1].target
      {
        assert rows[i] == rest[i - 1] && relations[i] == relations[1..][i - 1];
      }
    }
  }

  /** And tuples laid out like that are a chain. */
  lemma {:induction false} RowsToChain(store: Store, rows: seq<Row>, relations: seq<string>)
    requires rows != [] && Links(store, rows, relations)
    ensures Chain(store, rows[0].subject, relations, rows[|rows| - 1].target)
  {
    assert IsEdge(rows[0], store.now, rows[0].subject, relations[0], rows[0].target);
    if |rows| > 1 {
      assert Links(store, rows[1..], relations[1..]);
      RowsToChain(store, rows[1..], relations[1..]);
    }
  }

  /** The part of a node's outgoing tuples that one limited listing shows. */
  ghost predicate Listed(store: Store, limit: int, n: Node, relation: string, m: Node) {
    exists row :: row in Truncate(Select(store.rows, From(n, relation), store.now), limit) && row.target == m
  }

  /** Composition through listed tuples only; the last hop asks for the target itself
      and is never cut short. */
  ghost predicate ListedChain(store: Store, limit: int, n: Node, relations: seq<string>, target: Node)
    decreases |relations|
  {
    if relations == [] then false
    else if |relations| == 1 then Edge(store, n, relations[0], target)
    else exists m :: Listed(store, limit, n, relations[0], m) && ListedChain(store, limit, m, relations[1..], target)
  }

  ghost predicate SomeListedChain(store: Store, limit: int, nodes: seq<Node>, relations: seq<string>, target: Node) {
    exists n :: n in nodes && ListedChain(store, limit, n, relations, target)
  }

  /** No listing on the way is cut short. */
  ghost predicate Untruncated(store: Store, limit: int, n: Node, relations: seq<string>)
    decreases |relations|
  {
    |relations| > 1 ==>
      && (limit <= 0 || |Select(store.rows, From(n, relations[0]), store.now)| <= limit)
      && forall m :: Edge(store, n, relations[0], m) ==> Untruncated(store, limit, m, relations[1..])
  }

  /** Distinct stored objects have distinct frontier keys. */
  ghost predicate KeysInjective(store: Store) {
    forall r, s :: r in store.rows && s in store.rows && Key(r.target) == Key(s.target) ==> r.target == s.target
  }

  ghost predicate AllReady(nodes: seq<Node>) {
    forall n :: n in nodes ==> Ready(n)
  }

  ghost predicate AllSupported(relations: seq<string>) {
    forall r :: r in relations ==> Supported(r)
  }

  /** A listing that may show every stored tuple cuts nothing short. */
  lemma {:induction false} SmallUntruncated(store: Store, limit: int, n: Node, relations: seq<string>)
    requires limit <= 0 || |store.rows| <= limit
    ensures Untruncated(store, limit, n, relations)
    decreases |relations|
  {
    if |relations| > 1 {
      SelectShort(store.rows, From(n, relations[0]), store.now);
      forall m | Edge(store, n, relations[0], m)
        ensures Untruncated(store, limit, m, relations[1..])
      {
        SmallUntruncated(store, limit, m, relations[1..]);
      }
    }
  }

  lemma SelectShort(rows: seq<Row>, f: Filter, now: int)
    ensures |Select(rows, f, now)| <= |rows|
  {
  }

  lemma SupportedNormal(relation: string)
    requires Supported(relation)
    ensures Norm(relation) == relation
  {
    LettersNormal(relation);
  }

  /** Object kinds without a bar make the frontier keys unambiguous. */
  lemma NoBarKeysInjective(store: Store)
    requires forall row :: row in store.rows ==> '|' !in row.target.kind
    ensures KeysInjective(store)
  {
    forall r, s | r in store.rows && s in store.rows && Key(r.target) == Key(s.target)
      ensures r.target == s.target
    {
      SplitInjective('|', r.target.kind, r.target.id, s.target.kind, s.target.id);
    }
  }

  lemma SelectsEdge(n: Node, relation: string, m: Node, row: Row, now: int)
    requires Ready(n) && Supported(relation) && (m == ANY || Ready(m))
    ensures Selects(Filter(n, relation, m), row, now)
        <==> IsEdge(row, now, n, relation, row.target) && (m == ANY || row.target == m)
  {
    SupportedNormal(relation);
  }

  lemma SelectFrom(store: Store, n: Node, relation: string, row: Row)
    requires Ready(n) && Supported(relation)
    ensures row in Select(store.rows, From(n, relation), store.now)
        <==> row in store.rows && IsEdge(row, store.now, n, relation, row.target)
  {
    SelectsEdge(n, relation, ANY, row, store.now);
  }

  lemma SelectTo(store: Store, n: Node, relation: string, target: Node, row: Row)
    requires Ready(n) && Ready(target) && Supported(relation)
    ensures row in Select(store.rows, Filter(n, relation, target), store.now)
        <==> row in store.rows && IsEdge(row, store.now, n, relation, target)
  {
    SelectsEdge(n, relation, target, row, store.now);
  }

  lemma {:induction false} LastHopExact(store: Store, limit: int, nodes: seq<Node>, relation: string, target: Node)
    requires ValidStore(store) && AllReady(nodes) && Ready(target) && Supported(relation)
    ensures var r := LastHop(store, limit, nodes, relation, target);
        r.Ok? ==> (r.value <==> exists n :: n in nodes && Edge(store, n, relation, target))
  {
    hide Ready, Supported, Selects;
    if nodes != [] {
      var f := Filter(nodes[0], relation, target);
      var rows := Select(store.rows, f, store.now);
      if rows != [] {
        SelectTo(store, nodes[0], relation, target, rows[0]);
      } else {
        forall row | row in store.rows
          ensures !IsEdge(row, store.now, nodes[0], relation, target)
        {
          SelectTo(store, nodes[0], relation, target, row);
        }
      }
      LastHopExact(store, limit, nodes[1..], relation, target);
      assert nodes == [nodes[0]] + nodes[1..];
    }
  }

  ghost predicate FrontierNode(store: Store, limit: int, nodes: seq<Node>, relation: string, m: Node) {
    && Ready(m)
    && (exists row :: row in store.rows && row.target == m)
    && exists n :: n in nodes && Listed(store, limit, n, relation, m)
  }

  /** Entries of a frontier: object nodes of listed rows under their own keys. */
  ghost predicate FrontierOf(store: Store, limit: int, nodes: seq<Node>, relation: string, next: map<string, Node>) {
    && (forall k :: k in next ==> Key(next[k]) == k && FrontierNode(store, limit, nodes, relation, next[k]))
    && (forall n, m :: n in nodes && Listed(store, limit, n, relation, m) ==> Key(m) in next)
  }

  lemma {:induction false} AddTargetsExact(next: map<string, Node>, rows: seq<Row>)
    requires forall row :: row in rows ==> Ready(row.target)
    ensures var r := AddTargets(next, rows);
        && (forall row :: row in rows ==> Key(row.target) in r)
        && (forall k :: k in next ==> k in r)
        && (forall k :: k in r ==>
              || (k in next && r[k] == next[k])
              || exists row :: row in rows && row.target == r[k] && Key(r[k]) == k)
  {
    if rows != [] {
      var front, last := rows[..|rows| - 1], rows[|rows| - 1];
      assert rows == front + [last];
      assert last in rows;
      AddTargetsExact(next, front);
      var r := AddTargets(next, rows);
      forall k | k in r
        ensures (k in next && r[k] == next[k]) || exists row :: row in rows && row.target == r[k] && Key(r[k]) == k
      {
        if k == Key(last.target) {
          assert last.target == r[k];
        }
      }
    }
  }

  lemma ListedRow(store: Store, limit: int, n: Node, relation: string, row: Row)
    requires ValidStore(store) && Ready(n) && Supported(relation)
    requires row in Truncate(Select(store.rows, From(n, relation), store.now), limit)
    ensures row in store.rows && Ready(row.target) && Listed(store, limit, n, relation, row.target)
    ensures Edge(store, n, relation, row.target)
  {
    assert row in Select(store.rows, From(n, relation), store.now);
    SelectFrom(store, n, relation, row);
  }

  lemma FrontierStep(
      store: Store, limit: int, front: seq<Node>, last: Node, relation: string,
      before: map<string, Node>, rows: seq<Row>)
    requires ValidStore(store) && Ready(last) && Supported(relation)
    requires FrontierOf(store, limit, front, relation, before)
    requires rows == Truncate(Select(store.rows, From(last, relation), store.now), limit)
    ensures FrontierOf(store, limit, front + [last], relation, AddTargets(before, rows))
  {
    hide Ready, Supported, Selects, AddTargets, Key, Truncate, Select;
    var nodes, next := front + [last], AddTargets(before, rows);
    forall row | row in rows
      ensures Ready(row.target) && FrontierNode(store, limit, nodes, relation, row.target)
    {
      ListedRow(store, limit, last, relation, row);
      assert last in nodes;
    }
    AddTargetsExact(before, rows);
    forall k | k in next
      ensures Key(next[k]) == k && FrontierNode(store, limit, nodes, relation, next[k])
    {
      if k in before && next[k] == before[k] {
        var n :| n in front && Listed(store, limit, n, relation, before[k]);
        assert n in nodes;
      }
    }
    forall n, m | n in nodes && Listed(store, limit, n, relation, m)
      ensures Key(m) in next
    {
      if n in front {
        assert Key(m) in before;
      }
    }
  }

  lemma {:induction false} NextNodesExact(store: Store, limit: int, nodes: seq<Node>, relation: string)
    requires ValidStore(store) && AllReady(nodes) && Supported(relation)
    ensures var r := NextNodes(store, limit, nodes, relation);
        r.Ok? ==> FrontierOf(store, limit, nodes, relation, r.value)
  {
    hide Ready, Supported, Selects, Listed, AddTargets, FrontierNode;
    if nodes != [] && NextNodes(store, limit, nodes, relation).Ok? {
      var front, last := nodes[..|nodes| - 1], nodes[|nodes| - 1];
      NextNodesExact(store, limit, front, relation);
      var before := NextNodes(store, limit, front, relation).value;
      FrontierStep(store, limit, front, last, relation, before, List(store, From(last, relation), limit).value);
      assert nodes == front + [last];
    }
  }

  /** Main result: the walk answers whether a chain of listed tuples reaches the target,
      and always so when frontier keys are unambiguous. A "yes" is never wrong. */
  lemma {:induction false} WalkExact(
      store: Store, limit: int, nodes: seq<Node>, relations: seq<string>, target: Node, b: bool)
    requires ValidStore(store) && AllReady(nodes) && Ready(target) && AllSupported(relations)
    requires WalkMay(store, limit, nodes, relations, target, Ok(b))
    ensures b ==> SomeListedChain(store, limit, nodes, relations, target)
    ensures KeysInjective(store) && SomeListedChain(store, limit, nodes, relations, target) ==> b
    decreases |relations|
  {
    hide Ready, Supported, Listed, NextNodes, LastHop, FrontierOf, Edge, KeysInjective;
    if |relations| == 1 {
      LastHopExact(store, limit, nodes, relations[0], target);
      if b {
        var n :| n in nodes && Edge(store, n, relations[0], target);
        assert ListedChain(store, limit, n, relations, target);
      }
    } else if |relations| > 1 {
      var relation, rest := relations[0], relations[1..];
      var next := NextNodes(store, limit, nodes, relation).value;
      NextNodesExact(store, limit, nodes, relation);
      if next == map[] {
        EmptyFrontier(store, limit, nodes, relation, next);
      } else {
        var order :| ListsValues(order, next) && WalkMay(store, limit, order, rest, target, Ok(b));
        FrontierReady(store, limit, nodes, relation, next, order);
        WalkExact(store, limit, order, rest, target, b);
        hide WalkMay, ListsValues;
        if b {
          var m :| m in order && ListedChain(store, limit, m, rest, target);
          FrontierBack(store, limit, nodes, relation, next, order, m);
          var n :| n in nodes && Listed(store, limit, n, relation, m);
          assert ListedChain(store, limit, n, relations, target);
        }
        if KeysInjective(store) && SomeListedChain(store, limit, nodes, relations, target) {
          var n :| n in nodes && ListedChain(store, limit, n, relations, target);
          var m :| Listed(store, limit, n, relation, m) && ListedChain(store, limit, m, rest, target);
          FrontierForth(store, limit, nodes, relation, next, order, n, m);
        }
      }
    }
  }

  lemma EmptyFrontier(store: Store, limit: int, nodes: seq<Node>, relation: string, next: map<string, Node>)
    requires FrontierOf(store, limit, nodes, relation, next) && next == map[]
    ensures forall n, m :: n in nodes ==> !Listed(store, limit, n, relation, m)
  {
    hide Listed, Key;
    forall n, m | n in nodes && Listed(store, limit, n, relation, m)
      ensures Key(m) in next
    {
    }
  }

  lemma FrontierReady(
      store: Store, limit: int, nodes: seq<Node>, relation: string, next: map<string, Node>, order: seq<Node>)
    requires FrontierOf(store, limit, nodes, relation, next) && ListsValues(order, next)
    ensures AllReady(order)
  {
    forall n | n in order
      ensures Ready(n)
    {
      assert n in Elements(order);
    }
  }

  lemma FrontierBack(
      store: Store, limit: int, nodes: seq<Node>, relation: string, next: map<string, Node>, order: seq<Node>, m: Node)
    requires FrontierOf(store, limit, nodes, relation, next) && ListsValues(order, next) && m in order
    ensures exists n :: n in nodes && Listed(store, limit, n, relation, m)
  {
    assert m in Elements(order);
    var k :| k in next && next[k] == m;
  }

  lemma FrontierForth(
      store: Store, limit: int, nodes: seq<Node>, relation: string, next: map<string, Node>, order: seq<Node>,
      n: Node, m: Node)
    requires ValidStore(store) && AllReady(nodes) && Supported(relation) && KeysInjective(store)
    requires FrontierOf(store, limit, nodes, relation, next) && ListsValues(order, next)
    requires n in nodes && Listed(store, limit, n, relation, m)
    ensures m in order
  {
    var row :| row in Truncate(Select(store.rows, From(n, relation), store.now), limit) && row.target == m;
    ListedRow(store, limit, n, relation, row);
    var kept := next[Key(m)];
    var other :| other in store.rows && other.target == kept;
    assert kept == m;
    assert m in Elements(order);
  }

  lemma {:induction false} ListedChainIsChain(store: Store, limit: int, n: Node, relations: seq<string>, target: Node)
    requires ValidStore(store) && Ready(n) && AllSupported(relations)
    ensures ListedChain(store, limit, n, relations, target) ==> Chain(store, n, relations, target)
    decreases |relations|
  {
    if |relations| > 1 && ListedChain(store, limit, n, relations, target) {
      var m :| Listed(store, limit, n, relations[0], m) && ListedChain(store, limit, m, relations[1..], target);
      var row :| row in Truncate(Select(store.rows, From(n, relations[0]), store.now), limit) && row.target == m;
      ListedRow(store, limit, n, relations[0], row);
      ListedChainIsChain(store, limit, m, relations[1..], target);
    }
  }

  lemma {:induction false} ChainIsListed(store: Store, limit: int, n: Node, relations: seq<string>, target: Node)
    requires ValidStore(store) && Ready(n) && AllSupported(relations) && Untruncated(store, limit, n, relations)
    ensures Chain(store, n, relations, target) ==> ListedChain(store, limit, n, relations, target)
    decreases |relations|
  {
    if |relations| > 1 && Chain(store, n, relations, target) {
      var m :| Edge(store, n, relations[0], m) && Chain(store, m, relations[1..], target);
      var row :| row in store.rows && IsEdge(row, store.now, n, relations[0], m);
      SelectFrom(store, n, relations[0], row);
      assert Listed(store, limit, n, relations[0], m);
      ChainIsListed(store, limit, m, relations[1..], target);
    }
  }

  /** The walk decides relational composition: a "yes" always has a chain behind it, and a
      "no" is final when no intermediate listing is cut short and keys are unambiguous. */
  lemma WalkDecidesChain(store: Store, limit: int, start: Node, relations: seq<string>, target: Node, b: bool)
    requires ValidStore(store) && Ready(start) && Ready(target) && AllSupported(relations)
    requires WalkMay(store, limit, [start], relations, target, Ok(b))
    ensures b ==> Chain(store, start, relations, target)
    ensures KeysInjective(store) && Untruncated(store, limit, start, relations) ==>
        (b <==> Chain(store, start, relations, target))
  {
    WalkExact(store, limit, [start], relations, target, b);
    ListedChainIsChain(store, limit, start, relations, target);
    if KeysInjective(store) && Untruncated(store, limit, start, relations) && Chain(store, start, relations, target) {
      ChainIsListed(store, limit, start, relations, target);
      assert start in [start];
    }
  }

  // ----- an ambiguous key loses a node -----

  /** A subject is a member of `lost` and of `kept`, in listing order, and only `lost`
      owns the target. No query fails. */
  ghost function TwoGroups(u: Node, lost: Node, kept: Node, target: Node): Store {
    Store([Row(lost, OWNS, target, None), Row(u, MEMBER_OF, lost, None), Row(u, MEMBER_OF, kept, None)],
          0, (f: Filter) => false)
  }

  lemma CleanReady(n: Node)
    requires Ready(n)
    ensures CleanNode(n) == n && n.kind != "" && n.id != ""
  {
  }

  lemma TwoGroupsListing(u: Node, lost: Node, kept: Node, target: Node, limit: int)
    requires Ready(u) && Ready(lost) && Ready(kept) && u != lost && limit > 1
    ensures var store := TwoGroups(u, lost, kept, target);
        List(store, From(u, MEMBER_OF), limit) == Ok([store.rows[1], store.rows[2]])
  {
    hide Ready, Selects, Norm, Trim, Key;
    var rows, f := TwoGroups(u, lost, kept, target).rows, From(u, MEMBER_OF);
    SupportedNormal(MEMBER_OF);
    SelectsEdge(u, MEMBER_OF, ANY, rows[0], 0);
    SelectsEdge(u, MEMBER_OF, ANY, rows[1], 0);
    SelectsEdge(u, MEMBER_OF, ANY, rows[2], 0);
    assert rows[1..][1..] == rows[2..];
    assert Select(rows[2..], f, 0) == [rows[2]] + Select(rows[2..][1..], f, 0) == [rows[2]];
    assert Select(rows[1..], f, 0) == [rows[1], rows[2]];
  }

  lemma OverwrittenTarget(lost: Row, kept: Row)
    requires Ready(lost.target) && Ready(kept.target) && Key(lost.target) == Key(kept.target)
    ensures AddTargets(map[], [lost, kept]) == map[Key(kept.target) := kept.target]
  {
    hide Ready, CleanNode, Key;
    CleanReady(lost.target);
    CleanReady(kept.target);
    assert [lost, kept][..1] == [lost] && [lost][..0] == [];
    assert AddTargets(map[], [lost]) == map[Key(lost.target) := lost.target];
  }

  /** The second group overwrites the first on the frontier. */
  lemma TwoGroupsFrontier(u: Node, lost: Node, kept: Node, target: Node, limit: int)
    requires Ready(u) && Ready(lost) && Ready(kept) && Key(lost) == Key(kept) && u != lost && limit > 1
    ensures NextNodes(TwoGroups(u, lost, kept, target), limit, [u], MEMBER_OF) == Ok(map[Key(kept) := kept])
  {
    hide Ready, List, Key, AddTargets;
    var store := TwoGroups(u, lost, kept, target);
    TwoGroupsListing(u, lost, kept, target, limit);
    OverwrittenTarget(store.rows[1], store.rows[2]);
    assert [u][..0] == [];
  }

  /** Whenever two groups share a frontier key the first is dropped: a chain exists,
      nothing is cut short, and yet every run of the walk answers "no". */
  lemma SharedKeyLosesChain(u: Node, lost: Node, kept: Node, target: Node, limit: int, r: Result<bool>)
    requires Ready(u) && Ready(lost) && Ready(kept) && Ready(target)
    requires Key(lost) == Key(kept) && lost != kept && u != lost && u != kept
    requires limit > 1
    requires WalkMay(TwoGroups(u, lost, kept, target), limit, [u], [MEMBER_OF, OWNS], target, r)
    ensures Chain(TwoGroups(u, lost, kept, target), u, [MEMBER_OF, OWNS], target)
    ensures r == Ok(false)
  {
    hide Ready, Selects, Norm, Trim, Key, LastHop, NextNodes;
    var store := TwoGroups(u, lost, kept, target);
    assert [MEMBER_OF, OWNS][1..] == [OWNS];
    assert store.rows[0] in store.rows && store.rows[1] in store.rows;
    assert Edge(store, u, MEMBER_OF, lost) && Chain(store, lost, [OWNS], target);
    TwoGroupsFrontier(u, lost, kept, target, limit);
    var next := map[Key(kept) := kept];
    assert Key(kept) in next;
    var order :| ListsValues(order, next) && WalkMay(store, limit, order, [OWNS], target, r);
    assert forall n :: n in order ==> n in Elements(order);
    OnlyKept(u, lost, kept, target, limit, order);
  }

  lemma {:induction false} OnlyKept(u: Node, lost: Node, kept: Node, target: Node, limit: int, order: seq<Node>)
    requires Ready(kept) && Ready(target) && lost != kept && u != kept
    requires forall n :: n in order ==> n == kept
    ensures LastHop(TwoGroups(u, lost, kept, target), limit, order, OWNS, target) == Ok(false)
  {
    hide Ready, Selects, Norm, Trim;
    if order != [] {
      var store := TwoGroups(u, lost, kept, target);
      assert order[0] in order;
      var rows := Select(store.rows, Filter(kept, OWNS, target), 0);
      SupportedNormal(OWNS);
      if rows != [] {
        SelectTo(store, kept, OWNS, target, rows[0]);
      }
      assert forall n :: n in order[1..] ==> n in order;
      OnlyKept(u, lost, kept, target, limit, order[1..]);
    }
  }

  /** Kinds are free text, so such groups can be stored. */
  lemma SharedKeyExists() returns (lost: Node, kept: Node)
    ensures Ready(lost) && Ready(kept) && lost != kept && Key(lost) == Key(kept)
  {
    lost, kept := Node("a", "b|c"), Node("a|b", "c");
    assert Lower("a") == "a" && Lower("a|b") == "a|b";
    assert Key(lost) == "a|b|c" == Key(kept);
  }

  // ----- when frontier keys suffice -----

  ghost predicate KeysDistinct(objects: set<Node>) {
    forall n, m :: n in objects && m in objects && Key(n) == Key(m) ==> n == m
  }

  ghost predicate ObjectsIn(store: Store, objects: set<Node>) {
    forall row :: row in store.rows ==> row.target in objects
  }

  /** Over stores whose tuples lead to these objects only, a "no" is never wrong about a
      listed chain. */
  ghost predicate NeverMisses(objects: set<Node>, limit: int) {
    forall store, start, relations, target ::
      ValidStore(store) && ObjectsIn(store, objects) && Ready(start) && Ready(target) && AllSupported(relations)
      && WalkMay(store, limit, [start], relations, target, Ok(false)) ==>
        !ListedChain(store, limit, start, relations, target)
  }

  lemma DistinctInjective(store: Store, objects: set<Node>)
    requires KeysDistinct(objects) && ObjectsIn(store, objects)
    ensures KeysInjective(store)
  {
    hide Key;
  }

  lemma FreshSubject(a: Node, b: Node) returns (u: Node)
    ensures Ready(u) && u != a && u != b
  {
    assert Lower("user") == "user";
    var x, y, z := Node("user", "x"), Node("user", "y"), Node("user", "z");
    assert x.id[0] != y.id[0] && y.id[0] != z.id[0] && x.id[0] != z.id[0];
    u := if x != a && x != b then x else if y != a && y != b then y else z;
  }

  lemma SharedKeyMisses(objects: set<Node>, limit: int, lost: Node, kept: Node)
    requires lost in objects && kept in objects && Ready(lost) && Ready(kept)
    requires Key(lost) == Key(kept) && lost != kept && limit > 1
    ensures !NeverMisses(objects, limit)
  {
    hide Ready, WalkMay, ListedChain, ValidStore, Supported, Key;
    var u := FreshSubject(lost, kept);
    var store, relations := TwoGroups(u, lost, kept, kept), [MEMBER_OF, OWNS];
    TwoGroupsSilent(u, lost, kept, limit);
    TwoGroupsListed(u, lost, kept, limit);
    TwoGroupsStored(u, lost, kept);
    assert ObjectsIn(store, objects);
  }

  lemma TwoGroupsStored(u: Node, lost: Node, kept: Node)
    requires Ready(u) && Ready(lost) && Ready(kept)
    ensures ValidStore(TwoGroups(u, lost, kept, kept)) && AllSupported([MEMBER_OF, OWNS])
  {
    hide Ready;
  }

  lemma TwoGroupsSilent(u: Node, lost: Node, kept: Node, limit: int)
    requires Ready(u) && Ready(lost) && Ready(kept) && Key(lost) == Key(kept) && lost != kept
    requires u != lost && u != kept && limit > 1
    ensures WalkMay(TwoGroups(u, lost, kept, kept), limit, [u], [MEMBER_OF, OWNS], kept, Ok(false))
  {
    hide Ready, Selects, Norm, Trim, Key, LastHop, NextNodes;
    var store := TwoGroups(u, lost, kept, kept);
    assert [MEMBER_OF, OWNS][1..] == [OWNS];
    TwoGroupsFrontier(u, lost, kept, kept, limit);
    OnlyKept(u, lost, kept, kept, limit, [kept]);
    var next := map[Key(kept) := kept];
    assert Key(kept) in next && next.Values == {kept} && Elements([kept]) == {kept};
    assert ListsValues([kept], next) && WalkMay(store, limit, [kept], [OWNS], kept, Ok(false));
  }

  lemma TwoGroupsListed(u: Node, lost: Node, kept: Node, limit: int)
    requires Ready(u) && Ready(lost) && Ready(kept) && u != lost && limit > 1
    ensures ListedChain(TwoGroups(u, lost, kept, kept), limit, u, [MEMBER_OF, OWNS], kept)
  {
    hide Ready, Selects, Norm, Trim, Select;
    var store := TwoGroups(u, lost, kept, kept);
    assert [MEMBER_OF, OWNS][1..] == [OWNS];
    TwoGroupsListing(u, lost, kept, kept, limit);
    assert store.rows[0] in store.rows && Edge(store, lost, OWNS, kept);
    assert Listed(store, limit, u, MEMBER_OF, lost) by {
      assert store.rows[1] in [store.rows[1], store.rows[2]];
    }
    assert ListedChain(store, limit, lost, [OWNS], kept);
  }

  /** Main result: the walk finds every listed chain in every store over these objects
      exactly when no two of them share a frontier key. */
  lemma NeverMissesExactly(objects: set<Node>, limit: int)
    requires limit > 1 && forall n :: n in objects ==> Ready(n)
    ensures NeverMisses(objects, limit) <==> KeysDistinct(objects)
  {
    hide Ready, Key, WalkMay, ListedChain, ValidStore, Supported;
    if KeysDistinct(objects) {
      forall store, start, relations, target |
        ValidStore(store) && ObjectsIn(store, objects) && Ready(start) && Ready(target) && AllSupported(relations)
        && WalkMay(store, limit, [start], relations, target, Ok(false))
        ensures !ListedChain(store, limit, start, relations, target)
      {
        DistinctInjective(store, objects);
        WalkExact(store, limit, [start], relations, target, false);
        assert start in [start];
      }
    } else {
      var lost, kept :| lost in objects && kept in objects && Key(lost) == Key(kept) && lost != kept;
      SharedKeyMisses(objects, limit, lost, kept);
    }
  }

  // ----- a listing cut short loses a chain -----

  function Memberships(u: Node, groups: seq<Node>): seq<Row> {
    seq(|groups|, i requires 0 <= i < |groups| => Row(u, MEMBER_OF, groups[i], None))
  }

  /** A subject in many groups, the last of which owns the target. */
  ghost function ManyGroups(u: Node, groups: seq<Node>, target: Node): Store
    requires groups != []
  {
    Store([Row(groups[|groups| - 1], OWNS, target, None)] + Memberships(u, groups), 0, (f: Filter) => false)
  }

  lemma {:induction false} SelectAll(rows: seq<Row>, f: Filter, now: int)
    requires forall row :: row in rows ==> Selects(f, row, now)
    ensures Select(rows, f, now) == rows
  {
    hide Selects;
    if rows != [] {
      SelectAll(rows[1..], f, now);
    }
  }

  lemma ManyListed(u: Node, groups: seq<Node>, target: Node, limit: int, m: Node)
    requires Ready(u) && groups != [] && u != groups[|groups| - 1] && 0 < limit < |groups|
    requires Listed(ManyGroups(u, groups, target), limit, u, MEMBER_OF, m)
    ensures m in groups[..limit]
  {
    hide Ready, Selects, Supported;
    var store, f := ManyGroups(u, groups, target), From(u, MEMBER_OF);
    var all := Memberships(u, groups);
    forall row | row in all
      ensures Selects(f, row, 0)
    {
      SelectsEdge(u, MEMBER_OF, ANY, row, 0);
    }
    SelectAll(all, f, 0);
    SelectsEdge(u, MEMBER_OF, ANY, store.rows[0], 0);
    assert store.rows[1..] == all;
    assert Select(store.rows, f, 0) == all;
  }

  lemma ManyChain(u: Node, groups: seq<Node>, target: Node)
    requires groups != []
    ensures Chain(ManyGroups(u, groups, target), u, [MEMBER_OF, OWNS], target)
  {
    var store, last := ManyGroups(u, groups, target), |groups| - 1;
    assert [MEMBER_OF, OWNS][1..] == [OWNS];
    assert store.rows[0] in store.rows && store.rows[1 + last] in store.rows;
    assert store.rows[1 + last] == Row(u, MEMBER_OF, groups[last], None);
    assert Edge(store, groups[last], OWNS, target) && Chain(store, groups[last], [OWNS], target);
    assert Edge(store, u, MEMBER_OF, groups[last]);
  }

  /** Whenever one listing holds one tuple more than the limit, the chain through the last
      tuple is missed: no run of the walk says "yes". */
  lemma TruncationLosesChain(u: Node, groups: seq<Node>, target: Node, limit: int, r: Result<bool>)
    requires Ready(u) && Ready(target) && (forall g :: g in groups ==> Ready(g))
    requires Distinct(groups) && u !in groups && limit > 0 && |groups| == limit + 1
    requires WalkMay(ManyGroups(u, groups, target), limit, [u], [MEMBER_OF, OWNS], target, r)
    ensures Chain(ManyGroups(u, groups, target), u, [MEMBER_OF, OWNS], target)
    ensures r != Ok(true)
  {
    hide Ready, WalkMay, IsEdge;
    ManyChain(u, groups, target);
    if r == Ok(true) {
      var store, relations := ManyGroups(u, groups, target), [MEMBER_OF, OWNS];
      assert relations[1..] == [OWNS] && groups[limit] in groups;
      forall row | row in store.rows
        ensures StoredRow(row)
      {
      }
      WalkExact(store, limit, [u], relations, target, true);
      var m :| Listed(store, limit, u, MEMBER_OF, m) && ListedChain(store, limit, m, [OWNS], target);
      ManyListed(u, groups, target, limit, m);
      OnlyLastOwns(u, groups, target, m);
    }
  }

  lemma OnlyLastOwns(u: Node, groups: seq<Node>, target: Node, m: Node)
    requires groups != [] && Edge(ManyGroups(u, groups, target), m, OWNS, target)
    ensures m == groups[|groups| - 1]
  {
    assert OWNS[0] != MEMBER_OF[0];
  }

  lemma GroupReady(i: nat)
    ensures Ready(Node("group", Itoa(i)))
  {
    assert Lower("group") == "group";
    assert Trimmed(Itoa(i));
    hide Itoa;
  }

  /** There are such groups for every limit. */
  lemma GroupsExist(limit: nat) returns (groups: seq<Node>)
    ensures |groups| == limit + 1 && Distinct(groups) && forall g :: g in groups ==> Ready(g) && g.kind == "group"
  {
    hide Ready, Itoa;
    groups := seq(limit + 1, (i: nat) => Node("group", Itoa(i)));
    forall i: nat | i <= limit
      ensures Ready(groups[i]) && groups[i].kind == "group"
    {
      GroupReady(i);
    }
    forall i, j | 0 <= i < j < |groups|
      ensures groups[i] != groups[j]
    {
      if Itoa(i) == Itoa(j) {
        ItoaInjective(i, j);
      }
    }
  }
}
