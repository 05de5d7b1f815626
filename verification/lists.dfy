/** Ordered lists without repeats, and maps whose keys are cleaned on the way in. */
module Lists {
  import opened Text

  datatype Option<+T> = None | Some(value: T)

  datatype Result<+T> = Ok(value: T) | Err(message: string)

  function Elements<T>(s: seq<T>): set<T> {
    set x | x in s
  }

  predicate Distinct<T(==)>(s: seq<T>) {
    forall i, j :: 0 <= i < j < |s| ==> s[i] != s[j]
  }

  // ----- sorting -----

  ghost predicate TotalOrder<T(!new)>(le: (T, T) -> bool) {
    && (forall x, y :: le(x, y) || le(y, x))
    && (forall x, y :: le(x, y) && le(y, x) ==> x == y)
    && (forall x, y, z :: le(x, y) && le(y, z) ==> le(x, z))
  }

  ghost predicate Ascending<T>(s: seq<T>, le: (T, T) -> bool) {
    forall i, j :: 0 <= i < j < |s| ==> le(s[i], s[j])
  }

  function Insert<T>(x: T, s: seq<T>, le: (T, T) -> bool): seq<T> {
    if s == [] then [x]
    else if le(x, s[0]) then [x] + s
    else [s[0]] + Insert(x, s[1..], le)
  }

  function Sort<T>(s: seq<T>, le: (T, T) -> bool): seq<T> {
    if s == [] then [] else Insert(s[0], Sort(s[1..], le), le)
  }

  lemma {:induction false} InsertKeeps<T(!new)>(x: T, s: seq<T>, le: (T, T) -> bool)
    requires TotalOrder(le) && Ascending(s, le)
    ensures Ascending(Insert(x, s, le), le)
    ensures multiset(Insert(x, s, le)) == multiset{x} + multiset(s)
  {
    if s == [] {
    } else if le(x, s[0]) {
    } else {
      InsertKeeps(x, s[1..], le);
      var rest := Insert(x, s[1..], le);
      assert s == [s[0]] + s[1..];
      forall y | y in rest
        ensures le(s[0], y)
      {
        assert y in multiset(rest);
        assert y in multiset{x} + multiset(s[1..]);
        assert y == x || y in s[1..];
      }
    }
  }

  lemma {:induction false} SortCorrect<T(!new)>(s: seq<T>, le: (T, T) -> bool)
    requires TotalOrder(le)
    ensures Ascending(Sort(s, le), le)
    ensures multiset(Sort(s, le)) == multiset(s)
  {
    if s != [] {
      SortCorrect(s[1..], le);
      InsertKeeps(s[0], Sort(s[1..], le), le);
      assert s == [s[0]] + s[1..];
    }
  }

  lemma NoElements<T>(s: seq<T>)
    ensures Elements(s) == {} <==> s == []
  {
    if s != [] {
      assert s[0] in Elements(s);
    }
  }

  /** A set has only one ascending duplicate-free listing. */
  lemma {:induction false} AscendingUnique<T(!new)>(a: seq<T>, b: seq<T>, le: (T, T) -> bool)
    requires TotalOrder(le)
    requires Ascending(a, le) && Distinct(a) && Ascending(b, le) && Distinct(b)
    requires Elements(a) == Elements(b)
    ensures a == b
  {
    NoElements(a);
    NoElements(b);
    if a != [] && b != [] {
      assert a[0] in Elements(a) && b[0] in Elements(b);
      assert a[0] == b[0];
      assert Elements(a[1..]) == Elements(a) - {a[0]} by { assert a == [a[0]] + a[1..]; }
      assert Elements(b[1..]) == Elements(b) - {b[0]} by { assert b == [b[0]] + b[1..]; }
      AscendingUnique(a[1..], b[1..], le);
    }
  }

  lemma FirstIsLeast<T(!new)>(a: seq<T>, b: seq<T>, le: (T, T) -> bool)
    requires TotalOrder(le) && Ascending(a, le) && a != [] && b != [] && multiset(a) == multiset(b)
    ensures le(a[0], b[0])
  {
    assert b[0] in multiset(b);
    assert b[0] in a;
  }

  /** Sorting is canonical for multisets. */
  lemma {:induction false} SortedUnique<T(!new)>(a: seq<T>, b: seq<T>, le: (T, T) -> bool)
    requires TotalOrder(le) && Ascending(a, le) && Ascending(b, le) && multiset(a) == multiset(b)
    ensures a == b
  {
    assert |a| == |multiset(a)| == |multiset(b)| == |b|;
    if a != [] {
      FirstIsLeast(a, b, le);
      FirstIsLeast(b, a, le);
      assert a[0] == b[0];
      hide TotalOrder;
      TailMultiset(a);
      TailMultiset(b);
      TailAscending(a, le);
      TailAscending(b, le);
      hide Ascending;
      SortedUnique(a[1..], b[1..], le);
      assert a == [a[0]] + a[1..] && b == [b[0]] + b[1..];
    }
  }

  lemma TailMultiset<T>(a: seq<T>)
    requires a != []
    ensures multiset(a[1..]) == multiset(a) - multiset{a[0]}
  {
    assert a == [a[0]] + a[1..];
  }

  lemma TailAscending<T(!new)>(a: seq<T>, le: (T, T) -> bool)
    requires a != [] && Ascending(a, le)
    ensures Ascending(a[1..], le)
  {
  }

  lemma SortMultiset<T(!new)>(a: seq<T>, b: seq<T>, le: (T, T) -> bool)
    requires TotalOrder(le)
    ensures Sort(a, le) == Sort(b, le) <==> multiset(a) == multiset(b)
  {
    hide TotalOrder, Ascending;
    SortCorrect(a, le);
    SortCorrect(b, le);
    if multiset(a) == multiset(b) {
      SortedUnique(Sort(a, le), Sort(b, le), le);
    }
  }

  lemma SortedListing<T(!new)>(s: seq<T>, le: (T, T) -> bool)
    requires TotalOrder(le) && Distinct(s)
    ensures Ascending(Sort(s, le), le) && Distinct(Sort(s, le)) && Elements(Sort(s, le)) == Elements(s)
  {
    SortCorrect(s, le);
    SameMultiset(s, Sort(s, le));
  }

  lemma SameMultiset<T>(a: seq<T>, b: seq<T>)
    requires multiset(a) == multiset(b) && Distinct(a)
    ensures Distinct(b) && Elements(a) == Elements(b)
  {
    forall x
      ensures x in a <==> x in b
    {
      assert x in a <==> x in multiset(a);
      assert x in b <==> x in multiset(b);
    }
    forall i, j | 0 <= i < j < |b|
      ensures b[i] != b[j]
    {
      if b[i] == b[j] {
        TwoOccurrences(b, i, j);
        DistinctCount(a, b[i]);
      }
    }
  }

  lemma TwoOccurrences<T>(s: seq<T>, i: nat, j: nat)
    requires i < j < |s| && s[i] == s[j]
    ensures multiset(s)[s[i]] >= 2
  {
    assert s == s[..i] + [s[i]] + s[i + 1..j] + [s[j]] + s[j + 1..];
  }

  lemma {:induction false} DistinctCount<T>(s: seq<T>, x: T)
    requires Distinct(s)
    ensures multiset(s)[x] <= 1
  {
    if s != [] {
      DistinctCount(s[1..], x);
      assert s == [s[0]] + s[1..];
      if x == s[0] {
        assert x !in s[1..];
        assert x !in multiset(s[1..]);
      }
    }
  }

  lemma {:induction false} StringLeTotal(a: string, b: string)
    ensures StringLe(a, b) || StringLe(b, a)
    ensures StringLe(a, b) && StringLe(b, a) ==> a == b
  {
    if a != "" && b != "" && a[0] == b[0] {
      StringLeTotal(a[1..], b[1..]);
      assert a == [a[0]] + a[1..] && b == [b[0]] + b[1..];
    }
  }

  lemma {:induction false} StringLeTransitive(a: string, b: string, c: string)
    requires StringLe(a, b) && StringLe(b, c)
    ensures StringLe(a, c)
  {
    if a != "" && a[0] == b[0] && b[0] == c[0] {
      StringLeTransitive(a[1..], b[1..], c[1..]);
    }
  }

  lemma StringOrder()
    ensures TotalOrder(StringLe)
  {
    forall x: string, y: string
      ensures StringLe(x, y) || StringLe(y, x)
      ensures StringLe(x, y) && StringLe(y, x) ==> x == y
    {
      StringLeTotal(x, y);
    }
    forall x: string, y: string, z: string | StringLe(x, y) && StringLe(y, z)
      ensures StringLe(x, z)
    {
      StringLeTransitive(x, y, z);
    }
  }

  lemma IntOrder()
    ensures TotalOrder(IntLe)
  {
  }

  // ----- trimming lists -----

  /** Trimmed non-blank entries in order of first occurrence. */
  function Dedupe(values: seq<string>): (r: seq<string>)
    ensures Distinct(r) && "" !in r
    ensures forall v :: v in r <==> v != "" && exists i :: 0 <= i < |values| && Trim(values[i]) == v
  {
    if values == [] then []
    else
      var kept := Dedupe(values[..|values| - 1]);
      var item := Trim(values[|values| - 1]);
      assert values == values[..|values| - 1] + [values[|values| - 1]];
      if item == "" || item in kept then kept else kept + [item]
  }

  lemma DedupeHas(values: seq<string>, v: string)
    ensures v in Dedupe(values) <==> v != "" && exists w :: w in values && Trim(w) == v
  {
    hide Trim;
    if w :| w in values && Trim(w) == v && v != "" {
      var i :| 0 <= i < |values| && values[i] == w;
    }
  }

  /** The loop behind every list clean-up: a `seen` set and an output slice. */
  method DedupeStrings(values: seq<string>) returns (deduped: seq<string>)
    ensures deduped == Dedupe(values)
  {
    hide Trim;
    deduped := [];
    var seen: set<string> := {};
    for i := 0 to |values|
      invariant deduped == Dedupe(values[..i])
      invariant seen == Elements(deduped)
    {
      assert values[..i + 1][..i] == values[..i];
      var item := Trim(values[i]);
      if item != "" && item !in seen {
        seen := seen + {item};
        deduped := deduped + [item];
      }
    }
    assert values[..|values|] == values;
  }

  /** Cleaning a prefix first changes nothing. */
  lemma {:induction false} DedupePrefix(a: seq<string>, b: seq<string>)
    ensures Dedupe(Dedupe(a) + b) == Dedupe(a + b)
  {
    if b == [] {
      assert Dedupe(a) + b == Dedupe(a) && a + b == a;
      DedupeIdempotent(Dedupe(a));
    } else {
      var front, last := b[..|b| - 1], b[|b| - 1];
      assert (Dedupe(a) + b)[..|Dedupe(a) + b| - 1] == Dedupe(a) + front;
      assert (a + b)[..|a + b| - 1] == a + front;
      DedupePrefix(a, front);
    }
  }

  lemma {:induction false} DedupeIdempotent(a: seq<string>)
    requires Distinct(a) && forall v :: v in a ==> v != "" && Trimmed(v)
    ensures Dedupe(a) == a
  {
    if a != [] {
      hide Trim;
      var front, last := a[..|a| - 1], a[|a| - 1];
      assert a == front + [last] && last in a;
      assert forall v :: v in front ==> v in a;
      DedupeIdempotent(front);
      assert Trim(last) == last && last !in front;
    }
  }

  // ----- maps with cleaned keys -----

  /** `out` is a result of copying `raw` under cleaned keys while ranging over it in
      some order: blank keys and rejected values are dropped, and when several keys
      clean to the same one, any of their values may survive. */
  ghost predicate Rekeyed<V, W>(raw: map<string, V>, out: map<string, W>, clean: V -> Option<W>) {
    RekeyedSoFar(raw, raw.Keys, out, clean)
  }

  /** The same once the keys in `done` have been visited. */
  ghost predicate RekeyedSoFar<V, W>(
      raw: map<string, V>, done: set<string>, out: map<string, W>, clean: V -> Option<W>)
  {
    && (forall k :: k in raw && k in done && Norm(k) != "" && clean(raw[k]).Some? ==> Norm(k) in out)
    && (forall a :: a in out ==> exists k :: k in raw && RekeysTo(raw, k, a, out[a], clean))
  }

  lemma RekeyNone<V, W>(raw: map<string, V>, out: map<string, W>, clean: V -> Option<W>)
    requires out == map[]
    ensures RekeyedSoFar(raw, {}, out, clean)
    ensures raw.Keys - raw.Keys == {}
  {
  }

  lemma RekeySkip<V, W>(
      raw: map<string, V>, done: set<string>, out: map<string, W>, clean: V -> Option<W>, k: string)
    requires RekeyedSoFar(raw, done, out, clean)
    requires k in raw && (Norm(k) == "" || clean(raw[k]).None?)
    ensures RekeyedSoFar(raw, done + {k}, out, clean)
  {
    hide Norm;
  }

  lemma RekeyNext<V, W>(
      raw: map<string, V>, done: set<string>, out: map<string, W>, clean: V -> Option<W>, k: string, w: W)
    requires RekeyedSoFar(raw, done, out, clean)
    requires k in raw && Norm(k) != "" && clean(raw[k]) == Some(w)
    ensures RekeyedSoFar(raw, done + {k}, out[Norm(k) := w], clean)
  {
    hide Norm;
    var next := out[Norm(k) := w];
    forall a | a in next
      ensures exists l :: l in raw && RekeysTo(raw, l, a, next[a], clean)
    {
      if a == Norm(k) {
        assert RekeysTo(raw, k, a, w, clean);
      } else {
        var l :| l in raw && RekeysTo(raw, l, a, out[a], clean);
      }
    }
  }

  ghost predicate RekeysTo<V, W>(raw: map<string, V>, k: string, a: string, w: W, clean: V -> Option<W>)
    requires k in raw
  {
    a != "" && Norm(k) == a && clean(raw[k]) == Some(w)
  }

  lemma RekeyedHas<V, W>(raw: map<string, V>, out: map<string, W>, clean: V -> Option<W>, k: string)
    requires Rekeyed(raw, out, clean) && k in raw && Norm(k) != "" && clean(raw[k]).Some?
    ensures Norm(k) in out
  {
    hide Norm;
  }

  lemma RekeyedFrom<V, W>(raw: map<string, V>, out: map<string, W>, clean: V -> Option<W>, a: string)
    returns (k: string)
    requires Rekeyed(raw, out, clean) && a in out
    ensures k in raw && RekeysTo(raw, k, a, out[a], clean)
  {
    hide Norm;
    k :| k in raw && RekeysTo(raw, k, a, out[a], clean);
  }

  ghost predicate NormalKeys<V>(m: map<string, V>) {
    forall k :: k in m ==> Normal(k) && k != ""
  }

  /** Distinct keys stay distinct when cleaned, so the ranging order cannot matter. */
  ghost predicate NoKeyClash<V>(m: map<string, V>) {
    forall k, l :: k in m && l in m && Norm(k) == Norm(l) ==> k == l
  }

  lemma RekeyedNoClash<V, W>(raw: map<string, V>, out: map<string, W>, clean: V -> Option<W>, k: string)
    requires Rekeyed(raw, out, clean) && NoKeyClash(raw) && k in raw && Norm(k) != ""
    ensures Norm(k) in out <==> clean(raw[k]).Some?
    ensures Norm(k) in out ==> out[Norm(k)] == clean(raw[k]).value
  {
    if Norm(k) in out {
      var l :| l in raw && RekeysTo(raw, l, Norm(k), out[Norm(k)], clean);
    }
  }

  /** Over clean keys there is such a copy. */
  lemma RekeyedExists<V, W>(raw: map<string, V>, clean: V -> Option<W>)
    requires NormalKeys(raw)
    ensures Rekeyed(raw, map a | a in raw && clean(raw[a]).Some? :: clean(raw[a]).value, clean)
  {
    hide Norm;
    var out := map a | a in raw && clean(raw[a]).Some? :: clean(raw[a]).value;
    forall a | a in out
      ensures exists k :: k in raw && RekeysTo(raw, k, a, out[a], clean)
    {
      assert RekeysTo(raw, a, a, out[a], clean);
    }
  }

  /** Over already clean keys the copy is a plain filter-and-map. */
  lemma RekeyedNormal<V, W>(raw: map<string, V>, out: map<string, W>, clean: V -> Option<W>)
    requires Rekeyed(raw, out, clean) && NormalKeys(raw)
    ensures out == map a | a in raw && clean(raw[a]).Some? :: clean(raw[a]).value
  {
    forall a
      ensures a in out <==> a in raw && clean(raw[a]).Some?
      ensures a in out ==> out[a] == clean(raw[a]).value
    {
      if a in raw {
        RekeyedNoClash(raw, out, clean, a);
      }
    }
  }
}
