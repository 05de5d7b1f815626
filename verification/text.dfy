/** String cleaning as the authorization code uses it: `strings.TrimSpace`,
    `strings.ToLower`, `strings.ToUpper`, `strconv.Itoa` and the byte order of
    `sort.Strings`. Letter case is ASCII; white space is the Latin-1 part of `unicode.IsSpace`. */
module Text {

  predicate IsSpace(c: char) {
    c == ' ' || '\t' <= c <= '\r' || c == '\U{0085}' || c == '\U{00A0}'
  }

  function LowerChar(c: char): char {
    if 'A' <= c <= 'Z' then c - 'A' + 'a' else c
  }

  function UpperChar(c: char): char {
    if 'a' <= c <= 'z' then c - 'a' + 'A' else c
  }

  function Lower(s: string): string {
    seq(|s|, i requires 0 <= i < |s| => LowerChar(s[i]))
  }

  function Upper(s: string): string {
    seq(|s|, i requires 0 <= i < |s| => UpperChar(s[i]))
  }

  /** No white space at either end. */
  predicate Trimmed(s: string) {
    s == "" || (!IsSpace(s[0]) && !IsSpace(s[|s| - 1]))
  }

  function TrimLeft(s: string): (r: string)
    ensures r == "" || !IsSpace(r[0])
    ensures s != "" && !IsSpace(s[|s| - 1]) ==> r != "" && r[|r| - 1] == s[|s| - 1]
  {
    if s != "" && IsSpace(s[0]) then TrimLeft(s[1..]) else s
  }

  function TrimRight(s: string): (r: string)
    ensures r == "" || !IsSpace(r[|r| - 1])
    ensures s != "" && !IsSpace(s[0]) ==> r != "" && r[0] == s[0]
  {
    if s != "" && IsSpace(s[|s| - 1]) then TrimRight(s[..|s| - 1]) else s
  }

  function Trim(s: string): (r: string)
    ensures Trimmed(r)
    ensures Trimmed(s) ==> r == s
  {
    TrimRight(TrimLeft(s))
  }

  ghost predicate AllSpace(s: string) {
    forall i :: 0 <= i < |s| ==> IsSpace(s[i])
  }

  lemma {:induction false} TrimLeftExact(s: string) returns (i: nat)
    ensures i <= |s| && TrimLeft(s) == s[i..] && AllSpace(s[..i])
  {
    i := 0;
    if s != "" && IsSpace(s[0]) {
      var k := TrimLeftExact(s[1..]);
      i := k + 1;
      assert s[1..][k..] == s[i..] && s[..i] == [s[0]] + s[1..][..k];
    }
  }

  lemma {:induction false} TrimRightExact(s: string) returns (j: nat)
    ensures j <= |s| && TrimRight(s) == s[..j] && AllSpace(s[j..])
  {
    j := |s|;
    if s != "" && IsSpace(s[|s| - 1]) {
      j := TrimRightExact(s[..|s| - 1]);
      assert s[..|s| - 1][..j] == s[..j] && s[j..] == s[..|s| - 1][j..] + [s[|s| - 1]];
    }
  }

  /** Trimming removes the white space at both ends and nothing else. */
  lemma TrimExact(s: string) returns (i: nat, j: nat)
    ensures i <= j <= |s| && Trim(s) == s[i..j] && AllSpace(s[..i]) && AllSpace(s[j..])
    ensures i < j ==> !IsSpace(s[i]) && !IsSpace(s[j - 1])
  {
    i := TrimLeftExact(s);
    var k := TrimRightExact(s[i..]);
    j := i + k;
    assert s[i..][..k] == s[i..j] && s[i..][k..] == s[j..];
  }

  lemma TrimPart(s: string, c: char)
    requires c !in s
    ensures c !in Trim(s)
  {
    var i, j := TrimExact(s);
  }

  /** White space is the Latin-1 part of what Unicode calls so. */
  lemma SpaceExact(c: char)
    ensures IsSpace(c) <==> c in ['\t', '\n', '\U{000B}', '\U{000C}', '\r', ' ', '\U{0085}', '\U{00A0}']
  {
  }

  const LETTERS := "abcdefghijklmnopqrstuvwxyz"
  const CAPITALS := "ABCDEFGHIJKLMNOPQRSTUVWXYZ"

  lemma LetterExact(c: char)
    ensures c in LETTERS <==> 'a' <= c <= 'z'
  {
    assert 'a' <= c <= 'z' ==> LETTERS[c as int - 'a' as int] == c;
  }

  /** Each letter has its partner in the other case, and nothing else changes. */
  lemma CaseExact(c: char)
    ensures forall i :: 0 <= i < 26 ==> LowerChar(CAPITALS[i]) == LETTERS[i] && UpperChar(LETTERS[i]) == CAPITALS[i]
    ensures c !in CAPITALS ==> LowerChar(c) == c
    ensures c !in LETTERS ==> UpperChar(c) == c
  {
    assert 'A' <= c <= 'Z' ==> CAPITALS[c as int - 'A' as int] == c;
    assert 'a' <= c <= 'z' ==> LETTERS[c as int - 'a' as int] == c;
  }

  /** The canonical form of identifiers: trimmed and in lower case. */
  function Norm(s: string): string {
    Lower(Trim(s))
  }

  predicate Normal(s: string) {
    Norm(s) == s
  }

  /** The two ways the code tests for blank input agree. */
  lemma NormBlank(s: string)
    ensures Norm(s) == "" <==> Trim(s) == ""
  {
    assert |Norm(s)| == |Trim(s)|;
  }

  lemma LowerTrimmed(s: string)
    requires Trimmed(s)
    ensures Trimmed(Lower(s))
  {
  }

  lemma UpperFacts(s: string)
    ensures Upper(Upper(s)) == Upper(s)
    ensures Trimmed(s) ==> Trimmed(Upper(s))
    ensures ' ' in Upper(s) ==> ' ' in s
  {
    if ' ' in Upper(s) {
      var i :| 0 <= i < |s| && Upper(s)[i] == ' ';
      assert s[i] == ' ';
    }
  }

  lemma LowerIdempotent(s: string)
    ensures Lower(Lower(s)) == Lower(s)
  {
  }

  /** Cleaning an identifier twice is cleaning it once. */
  lemma NormIdempotent(s: string)
    ensures Normal(Norm(s))
    ensures Trim(Norm(s)) == Norm(s)
    ensures Lower(Norm(s)) == Norm(s)
  {
    LowerTrimmed(Trim(s));
    LowerIdempotent(Trim(s));
  }

  lemma NormalFacts(s: string)
    requires Normal(s)
    ensures Trim(s) == s && Lower(s) == s
  {
    NormIdempotent(s);
  }

  /** The literals of the source are already canonical. */
  lemma LettersNormal(s: string)
    requires forall i :: 0 <= i < |s| ==> 'a' <= s[i] <= 'z' || s[i] == '_' || s[i] == '.'
    ensures Normal(s)
  {
    assert Trim(s) == s;
  }

  // ----- decimal rendering -----

  function Digit(d: nat): char
    requires d < 10
  {
    '0' + d as char
  }

  function Decimal(n: nat): (r: string)
    ensures r != ""
    ensures forall i :: 0 <= i < |r| ==> '0' <= r[i] <= '9'
  {
    if n < 10 then [Digit(n)] else Decimal(n / 10) + [Digit(n % 10)]
  }

  function Itoa(n: int): (r: string)
    ensures r != "" && '|' !in r
    ensures r[0] == '-' <==> n < 0
  {
    if n < 0 then "-" + Decimal(-n) else Decimal(n)
  }

  lemma {:induction false} DecimalInjective(m: nat, n: nat)
    requires Decimal(m) == Decimal(n)
    ensures m == n
  {
    var dm, dn := Decimal(m), Decimal(n);
    assert dm[|dm| - 1] == Digit(m % 10) && dn[|dn| - 1] == Digit(n % 10);
    if m >= 10 && n >= 10 {
      assert dm[..|dm| - 1] == Decimal(m / 10) && dn[..|dn| - 1] == Decimal(n / 10);
      DecimalInjective(m / 10, n / 10);
    }
  }

  lemma ItoaInjective(m: int, n: int)
    requires Itoa(m) == Itoa(n)
    ensures m == n
  {
    if m < 0 && n < 0 {
      assert Itoa(m)[1..] == Decimal(-m) && Itoa(n)[1..] == Decimal(-n);
      DecimalInjective(-m, -n);
    } else if m >= 0 && n >= 0 {
      DecimalInjective(m, n);
    }
  }

  // ----- fields joined by a separator -----

  function FirstOf(c: char, s: string): nat {
    if s == "" || s[0] == c then 0 else 1 + FirstOf(c, s[1..])
  }

  lemma {:induction false} FirstOfAt(c: char, a: string, rest: string)
    requires c !in a
    ensures FirstOf(c, a + [c] + rest) == |a|
  {
    var s := a + [c] + rest;
    if a == "" {
      assert s[0] == c;
    } else {
      assert s[0] == a[0] && s[1..] == a[1..] + [c] + rest;
      FirstOfAt(c, a[1..], rest);
    }
  }

  /** A first field without the separator can be read back. */
  lemma SplitInjective(c: char, a: string, x: string, b: string, y: string)
    requires c !in a && c !in b && a + [c] + x == b + [c] + y
    ensures a == b && x == y
  {
    FirstOfAt(c, a, x);
    FirstOfAt(c, b, y);
    var s := a + [c] + x;
    assert s[..|a|] == a && s[..|b|] == b;
    assert s[|a| + 1..] == x && s[|b| + 1..] == y;
  }

  /** The fields of a string joined with this separator. */
  function Split(c: char, s: string): seq<string>
    decreases |s|
  {
    if c !in s then [s] else [Head(c, s)] + Split(c, Tail(c, s))
  }

  function Head(c: char, s: string): (r: string)
    requires c in s
    ensures |r| < |s|
  {
    if s[0] == c then "" else [s[0]] + Head(c, s[1..])
  }

  function Tail(c: char, s: string): (r: string)
    requires c in s
    ensures |r| < |s|
  {
    if s[0] == c then s[1..] else Tail(c, s[1..])
  }

  /** `strings.Join` */
  function Join(c: char, parts: seq<string>): string
    requires parts != []
  {
    if |parts| == 1 then parts[0] else parts[0] + [c] + Join(c, parts[1..])
  }

  /** Joined fields can be read back when none holds the separator. */
  lemma {:induction false} SplitJoin(c: char, parts: seq<string>)
    requires parts != [] && forall i :: 0 <= i < |parts| ==> c !in parts[i]
    ensures Split(c, Join(c, parts)) == parts
  {
    if |parts| > 1 {
      SplitJoin(c, parts[1..]);
      SplitFirst(c, parts[0], Join(c, parts[1..]));
      assert [parts[0]] + parts[1..] == parts;
    }
  }

  lemma {:induction false} JoinEnds(c: char, parts: seq<string>)
    requires |parts| > 1
    ensures var s := Join(c, parts);
        s != "" && s[0] == (if parts[0] == "" then c else parts[0][0])
        && s[|s| - 1] == var last := parts[|parts| - 1]; if last == "" then c else last[|last| - 1]
  {
    if |parts| > 2 {
      JoinEnds(c, parts[1..]);
    }
  }

  /** Trimmed fields join to a trimmed string. */
  lemma JoinTrimmed(c: char, parts: seq<string>)
    requires |parts| > 1 && !IsSpace(c) && Trimmed(parts[0]) && Trimmed(parts[|parts| - 1])
    ensures Trimmed(Join(c, parts))
  {
    JoinEnds(c, parts);
  }

  /** A first field without the separator splits off. */
  lemma {:induction false} SplitFirst(c: char, a: string, rest: string)
    requires c !in a
    ensures Split(c, a + [c] + rest) == [a] + Split(c, rest)
  {
    HeadTail(c, a, rest);
    assert (a + [c] + rest)[|a|] == c;
  }

  lemma {:induction false} HeadTail(c: char, a: string, rest: string)
    requires c !in a
    ensures var s := a + [c] + rest;
        c in s && Head(c, s) == a && Tail(c, s) == rest
  {
    var s := a + [c] + rest;
    assert s[|a|] == c;
    if a != "" {
      assert s[0] == a[0] && s[1..] == a[1..] + [c] + rest;
      HeadTail(c, a[1..], rest);
    }
  }

  // ----- order -----

  /** Lexicographic order, the one `sort.Strings` uses. */
  predicate StringLe(a: string, b: string) {
    a == "" || (b != "" && (a[0] < b[0] || (a[0] == b[0] && StringLe(a[1..], b[1..]))))
  }

  /** A string comes before another when it starts it, or has the smaller character at the
      first place they differ. */
  lemma {:induction false} StringLeExact(a: string, b: string)
    ensures StringLe(a, b) <==>
        a <= b || exists k: nat :: k < |a| && k < |b| && a[..k] == b[..k] && a[k] < b[k]
  {
    if a != "" && b != "" {
      StringLeExact(a[1..], b[1..]);
      if a[0] == b[0] {
        assert a == [a[0]] + a[1..] && b == [b[0]] + b[1..];
        if k: nat :| k < |a[1..]| && k < |b[1..]| && a[1..][..k] == b[1..][..k] && a[1..][k] < b[1..][k] {
          assert a[..k + 1] == [a[0]] + a[1..][..k] && b[..k + 1] == [b[0]] + b[1..][..k];
          assert a[k + 1] < b[k + 1];
        }
        if k: nat :| k < |a| && k < |b| && a[..k] == b[..k] && a[k] < b[k] {
          assert k > 0;
          assert a[1..][..k - 1] == a[..k][1..] && b[1..][..k - 1] == b[..k][1..];
          assert a[1..][k - 1] < b[1..][k - 1];
        }
      } else if a[0] < b[0] {
        assert a[..0] == b[..0];
      } else {
        forall k: nat | k < |a| && k < |b| && a[..k] == b[..k]
          ensures b[k] <= a[k]
        {
          HeadsAgree(a, b, k);
        }
      }
    }
  }

  lemma HeadsAgree(a: string, b: string, k: nat)
    requires 0 < |a| && 0 < |b| && k < |a| && k < |b| && a[..k] == b[..k]
    ensures k == 0 || a[0] == b[0]
  {
    if k > 0 {
      assert a[..k][0] == b[..k][0];
    }
  }

  predicate IntLe(a: int, b: int) {
    a <= b
  }
}
