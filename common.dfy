/** Shared building blocks of the model: optional values and results, the few
    operations of Python's `str` and Go's `strings` packages that the build
    tooling relies on, and the byte-wise string order that both Go's
    `slices.Sort` and Python's `sorted` use on the names involved. */
module Common {

  datatype Option<T> = None | Some(value: T)

  /** A value or the error that the source raises, panics with or returns. */
  datatype Result<T, E> = Ok(value: T) | Err(error: E) {
    predicate IsFailure() { Err? }

    function PropagateFailure<U>(): Result<U, E>
      requires Err?
    {
      Err(error)
    }

    function Extract(): T
      requires Ok?
    {
      value
    }
  }

  predicate StartsWith(s: string, prefix: string) {
    |prefix| <= |s| && s[..|prefix|] == prefix
  }

  predicate EndsWith(s: string, suffix: string) {
    |suffix| <= |s| && s[|s| - |suffix|..] == suffix
  }

  /** Position of the first `c` in `s`. */
  function IndexOf(s: string, c: char): (r: Option<nat>)
    ensures r.None? <==> c !in s
    ensures r.Some? ==> r.value < |s| && s[r.value] == c && c !in s[..r.value]
  {
    if |s| == 0 then None
    else if s[0] == c then Some(0)
    else match IndexOf(s[1..], c)
      case None => None
      case Some(i) => assert s[1..][..i] == s[1..i + 1]; Some(i + 1)
  }

  /** Python's `s.lstrip(c)` for a one-character argument: every leading `c`
      is removed. */
  function LStrip(s: string, c: char): (r: string)
    ensures |r| <= |s| && r == s[|s| - |r|..]
    ensures r == [] || r[0] != c
    ensures forall i :: 0 <= i < |s| - |r| ==> s[i] == c
  {
    if |s| > 0 && s[0] == c then LStrip(s[1..], c) else s
  }

  /** `n` copies of `c`. */
  function Repeat(c: char, n: nat): (r: string)
    ensures |r| == n && forall i :: 0 <= i < n ==> r[i] == c
  {
    if n == 0 then [] else [c] + Repeat(c, n - 1)
  }

  /** Stripping removes a whole run of `c`, however long. */
  lemma {:induction false} LStripRun(n: nat, s: string, c: char)
    requires s == [] || s[0] != c
    ensures LStrip(Repeat(c, n) + s, c) == s
  {
    var x := Repeat(c, n) + s;
    if n == 0 {
      assert x == s;
    } else {
      assert x[1..] == Repeat(c, n - 1) + s;
      LStripRun(n - 1, s, c);
    }
  }

  predicate Ascii(c: char) {
    (c as int) < 0x80
  }

  /** How many bytes UTF-8 spends on `c`. */
  function CharBytes(c: char): (n: nat)
    ensures 1 <= n <= 4
    ensures n == 1 <==> Ascii(c)
  {
    if Ascii(c) then 1
    else if (c as int) < 0x800 then 2
    else if (c as int) < 0x10000 then 3
    else 4
  }

  /** Go's `len(s)`: the length of `s` in UTF-8 bytes. */
  function Utf8Len(s: string): (n: nat)
    ensures |s| <= n <= 4 * |s|
  {
    if s == [] then 0 else CharBytes(s[0]) + Utf8Len(s[1..])
  }

  /** A one-byte string is one ASCII character. */
  lemma Utf8LenOne(s: string)
    ensures Utf8Len(s) == 1 <==> |s| == 1 && Ascii(s[0])
  {
    if |s| == 1 {
      assert s[1..] == [];
    }
  }

  /** A two-byte string is two ASCII characters or one character of two
      bytes. */
  lemma Utf8LenTwo(s: string)
    ensures Utf8Len(s) == 2 <==>
      (|s| == 2 && Ascii(s[0]) && Ascii(s[1])) || (|s| == 1 && CharBytes(s[0]) == 2)
  {
    if |s| == 1 {
      assert s[1..] == [];
    } else if |s| == 2 {
      assert s[1..][1..] == [];
      assert s[1..][0] == s[1];
    }
  }

  /** The position of the first element of `s` that satisfies `p`. */
  function FirstWhere<T>(s: seq<T>, p: T -> bool): (r: Option<nat>)
    ensures r.None? <==> forall i :: 0 <= i < |s| ==> !p(s[i])
    ensures r.Some? ==> r.value < |s| && p(s[r.value])
    ensures r.Some? ==> forall j :: 0 <= j < r.value ==> !p(s[j])
  {
    if s == [] then None
    else if p(s[0]) then Some(0)
    else match FirstWhere(s[1..], p)
      case None => None
      case Some(i) => assert s[1..][i] == s[i + 1]; Some(i + 1)
  }

  /** An element of `s` that satisfies `p`, with none before it that does,
      is the first. */
  lemma FirstWhereIs<T>(s: seq<T>, p: T -> bool, i: nat)
    requires i < |s| && p(s[i])
    requires forall j :: 0 <= j < i ==> !p(s[j])
    ensures FirstWhere(s, p) == Some(i)
  {
  }

  /** The characters Python's `str.splitlines` breaks lines at. */
  predicate IsLineBreak(c: char) {
    (c as int) in {0x0A, 0x0B, 0x0C, 0x0D, 0x1C, 0x1D, 0x1E, 0x85, 0x2028, 0x2029}
  }

  /** Python's `s.splitlines()`: the lines without their line breaks, a
      `\r\n` counting as one break, and no empty line after a final break. */
  function SplitLines(s: string): (ls: seq<string>)
    ensures forall i, k :: 0 <= i < |ls| && 0 <= k < |ls[i]| ==> !IsLineBreak(ls[i][k])
    ensures s != [] ==> ls != []
    decreases |s|
  {
    if s == [] then []
    else match FirstWhere(s, IsLineBreak)
      case None => [s]
      case Some(i) =>
        var next := if s[i] == '\r' && i + 1 < |s| && s[i + 1] == '\n' then i + 2 else i + 1;
        [s[..i]] + SplitLines(s[next..])
  }

  /** A line ended by a newline comes first, and the rest of the text is
      split after it. */
  lemma SplitLinesCons(line: string, rest: string)
    requires forall k :: 0 <= k < |line| ==> !IsLineBreak(line[k])
    ensures SplitLines(line + "\n" + rest) == [line] + SplitLines(rest)
  {
    var s := line + "\n" + rest;
    FirstWhereIs(s, IsLineBreak, |line|);
    assert s[..|line|] == line;
    assert s[|line| + 1..] == rest;
  }

  /** A text without line breaks is one line. */
  lemma SplitLinesOne(line: string)
    requires line != [] && forall k :: 0 <= k < |line| ==> !IsLineBreak(line[k])
    ensures SplitLines(line) == [line]
  {
  }

  /** Go's `strings.Cut(s, sep)` for a one-character separator: the text
      before and after the first `sep`, and whether there was one. */
  function Cut(s: string, sep: char): (r: (string, string, bool))
    ensures r.2 <==> sep in s
    ensures r.2 ==> s == r.0 + [sep] + r.1 && sep !in r.0
    ensures !r.2 ==> r.0 == s && r.1 == ""
  {
    match IndexOf(s, sep)
    case None => (s, "", false)
    case Some(i) =>
      assert s == s[..i] + [sep] + s[i + 1..];
      (s[..i], s[i + 1..], true)
  }

  /** Python's `s.split(sep)` for a one-character separator: never empty, and
      no part contains the separator. */
  function Split(s: string, sep: char): (parts: seq<string>)
    ensures |parts| >= 1
    ensures forall i :: 0 <= i < |parts| ==> sep !in parts[i]
  {
    if |s| == 0 then [""]
    else if s[0] == sep then [""] + Split(s[1..], sep)
    else
      var rest := Split(s[1..], sep);
      [[s[0]] + rest[0]] + rest[1..]
  }

  /** Python's `sep.join(parts)` and Go's `strings.Join(parts, sep)`. */
  function Join(parts: seq<string>, sep: string): string {
    if |parts| == 0 then ""
    else if |parts| == 1 then parts[0]
    else parts[0] + sep + Join(parts[1..], sep)
  }

  /** Joining more than one part puts the separator before the last. */
  lemma {:induction false} JoinSnoc(parts: seq<string>, sep: string)
    requires |parts| >= 2
    ensures Join(parts, sep) == Join(parts[..|parts| - 1], sep) + sep + parts[|parts| - 1]
    decreases |parts|
  {
    var front := parts[..|parts| - 1];
    if |parts| == 2 {
      assert front == [parts[0]];
      assert parts[1..] == [parts[1]];
    } else {
      var tail := parts[1..];
      JoinSnoc(tail, sep);
      assert tail[..|tail| - 1] == front[1..];
      assert front[0] == parts[0];
      assert Join(front, sep) == front[0] + sep + Join(front[1..], sep);
    }
  }

  /** Joining the parts of a split restores the text. */
  lemma {:induction false} JoinSplit(s: string, sep: char)
    ensures Join(Split(s, sep), [sep]) == s
  {
    if |s| == 0 {
    } else if s[0] == sep {
      JoinSplit(s[1..], sep);
      var rest := Split(s[1..], sep);
      if |rest| == 1 {
        assert Join([""] + rest, [sep]) == "" + [sep] + rest[0];
      } else {
        assert ([""] + rest)[1..] == rest;
      }
    } else {
      JoinSplit(s[1..], sep);
      var rest := Split(s[1..], sep);
      var parts := [[s[0]] + rest[0]] + rest[1..];
      if |rest| == 1 {
        assert Join(parts, [sep]) == [s[0]] + rest[0];
      } else {
        assert parts[1..] == rest[1..];
        assert Join(rest, [sep]) == rest[0] + [sep] + Join(rest[1..], [sep]);
        assert s == [s[0]] + s[1..];
      }
    }
  }

  /** Splitting text that starts with a separator-free part and a separator
      yields that part first. */
  lemma {:induction false} SplitAfter(a: string, sep: char, b: string)
    requires sep !in a
    ensures Split(a + [sep] + b, sep) == [a] + Split(b, sep)
    decreases |a|
  {
    if |a| == 0 {
      assert a + [sep] + b == [sep] + b;
      assert ([sep] + b)[1..] == b;
    } else {
      assert (a + [sep] + b)[1..] == a[1..] + [sep] + b;
      SplitAfter(a[1..], sep, b);
      assert [a[0]] + a[1..] == a;
    }
  }

  /** Text without the separator is one part. */
  lemma {:induction false} SplitNone(a: string, sep: char)
    requires sep !in a
    ensures Split(a, sep) == [a]
    decreases |a|
  {
    if |a| > 0 {
      SplitNone(a[1..], sep);
      assert [a[0]] + a[1..] == a;
    }
  }

  /** Splitting joined separator-free parts gives the parts back. */
  lemma {:induction false} SplitJoin(parts: seq<string>, sep: char)
    requires |parts| >= 1
    requires forall i :: 0 <= i < |parts| ==> sep !in parts[i]
    ensures Split(Join(parts, [sep]), sep) == parts
    decreases |parts|
  {
    if |parts| == 1 {
      SplitNone(parts[0], sep);
    } else {
      SplitJoin(parts[1..], sep);
      SplitAfter(parts[0], sep, Join(parts[1..], [sep]));
      assert [parts[0]] + parts[1..] == parts;
    }
  }

  // ---------------------------------------------------------------------
  // White space and lines

  /** Go's `unicode.IsSpace`. */
  predicate IsGoSpace(c: char) {
    c == '\t' || c == '\n' || c == '\U{000B}' || c == '\U{000C}' || c == '\r' || c == ' '
    || c == '\U{0085}' || c == '\U{00A0}' || c == '\U{1680}'
    || ('\U{2000}' <= c <= '\U{200A}')
    || c == '\U{2028}' || c == '\U{2029}' || c == '\U{202F}' || c == '\U{205F}' || c == '\U{3000}'
  }

  /** Python's `str.isspace` for one character. */
  predicate IsPySpace(c: char) {
    IsGoSpace(c) || ('\U{001C}' <= c <= '\U{001F}')
  }

  /** The white space of Go (`go`) or of Python (`!go`). */
  predicate IsSpace(c: char, go: bool) {
    if go then IsGoSpace(c) else IsPySpace(c)
  }

  function TrimLeft(s: string, go: bool): (r: string)
    ensures |r| <= |s| && r == s[|s| - |r|..]
    ensures r == [] || !IsSpace(r[0], go)
    ensures forall i :: 0 <= i < |s| - |r| ==> IsSpace(s[i], go)
  {
    if |s| > 0 && IsSpace(s[0], go) then TrimLeft(s[1..], go) else s
  }

  function TrimRight(s: string, go: bool): (r: string)
    ensures |r| <= |s| && r == s[..|r|]
    ensures r == [] || !IsSpace(r[|r| - 1], go)
    ensures forall i :: |r| <= i < |s| ==> IsSpace(s[i], go)
  {
    if |s| > 0 && IsSpace(s[|s| - 1], go) then TrimRight(s[..|s| - 1], go) else s
  }

  /** Go's `strings.TrimSpace`: what is left starts and ends with a
      non-space, and nothing is left exactly when the text is all space. */
  function TrimSpace(s: string): (r: string)
    ensures r == [] || (!IsGoSpace(r[0]) && !IsGoSpace(r[|r| - 1]))
    ensures r == [] <==> forall i :: 0 <= i < |s| ==> IsGoSpace(s[i])
    ensures |r| <= |s|
  {
    var l := TrimLeft(s, true);
    var r := TrimRight(l, true);
    assert r == [] ==> forall i :: 0 <= i < |s| ==> IsSpace(s[i], true);
    assert r != [] ==> s[|s| - |l|] == l[0] == r[0];
    r
  }

  /** Python's `str.strip()` without arguments. */
  function PyStrip(s: string): (r: string)
    ensures r == [] || (!IsPySpace(r[0]) && !IsPySpace(r[|r| - 1]))
  {
    TrimRight(TrimLeft(s, false), false)
  }

  /** Go's `strings.Lines`: every line keeps its terminating newline, and a
      final line without one is produced only when it is not empty. */
  function Lines(s: string): (ls: seq<string>)
    ensures forall i :: 0 <= i < |ls| ==> ls[i] != ""
    ensures forall i :: 0 <= i < |ls| ==> '\n' !in ls[i][..|ls[i]| - 1]
    decreases |s|
  {
    if s == [] then []
    else match IndexOf(s, '\n')
      case None => [s]
      case Some(i) => [s[..i + 1]] + Lines(s[i + 1..])
  }

  /** Concatenating the lines restores the text. */
  lemma {:induction false} LinesConcat(s: string)
    ensures Concat(Lines(s)) == s
    decreases |s|
  {
    if s != [] {
      match IndexOf(s, '\n')
      case None =>
      case Some(i) =>
        LinesConcat(s[i + 1..]);
        assert s == s[..i + 1] + s[i + 1..];
    }
  }

  function Concat(ss: seq<string>): string {
    if ss == [] then "" else ss[0] + Concat(ss[1..])
  }

  // ---------------------------------------------------------------------
  // String order (code-point order, the same as Go's byte-wise order on
  // UTF-8) and sorted key lists

  predicate StrLess(a: string, b: string)
    decreases |a|
  {
    if |a| == 0 then |b| > 0
    else |b| > 0 && (a[0] < b[0] || (a[0] == b[0] && StrLess(a[1..], b[1..])))
  }

  lemma {:induction false} StrLessIrreflexive(a: string)
    ensures !StrLess(a, a)
    decreases |a|
  {
    if |a| > 0 { StrLessIrreflexive(a[1..]); }
  }

  lemma {:induction false} StrLessTransitive(a: string, b: string, c: string)
    requires StrLess(a, b) && StrLess(b, c)
    ensures StrLess(a, c)
    decreases |a|
  {
    if |a| > 0 && a[0] == b[0] && b[0] == c[0] {
      StrLessTransitive(a[1..], b[1..], c[1..]);
    }
  }

  lemma {:induction false} StrLessTotal(a: string, b: string)
    requires a != b
    ensures StrLess(a, b) || StrLess(b, a)
    decreases |a|
  {
    if |a| > 0 && |b| > 0 && a[0] == b[0] {
      assert a == [a[0]] + a[1..] && b == [b[0]] + b[1..];
      StrLessTotal(a[1..], b[1..]);
    }
  }

  lemma StrLessAsymmetric(a: string, b: string)
    requires StrLess(a, b)
    ensures !StrLess(b, a)
  {
    if StrLess(b, a) {
      StrLessTransitive(a, b, a);
      StrLessIrreflexive(a);
    }
  }

  /** Strictly increasing, hence also free of duplicates. */
  predicate Sorted(s: seq<string>) {
    forall i, j :: 0 <= i < j < |s| ==> StrLess(s[i], s[j])
  }

  /** Inserts `x` at its place in a sorted list that lacks it. */
  function Insert(x: string, s: seq<string>): (r: seq<string>)
    requires Sorted(s) && x !in s
    ensures Sorted(r) && |r| == |s| + 1
    ensures forall y :: y in r <==> y == x || y in s
  {
    if s == [] then [x]
    else if StrLess(x, s[0]) then
      forall j | 0 < j < |s| ensures StrLess(x, s[j]) { StrLessTransitive(x, s[0], s[j]); }
      [x] + s
    else
      StrLessTotal(x, s[0]);
      var t := Insert(x, s[1..]);
      assert forall y :: y in t ==> StrLess(s[0], y);
      [s[0]] + t
  }

  /** The distinct elements of a set in ascending order: Go's
      `slices.Sorted(maps.Keys(m))` and Python's `sorted(keys)`. */
  method SortedKeys(keys: set<string>) returns (r: seq<string>)
    ensures Sorted(r) && |r| == |keys|
    ensures forall x :: x in r <==> x in keys
  {
    r := [];
    var rest := keys;
    while rest != {}
      invariant rest <= keys && Sorted(r)
      invariant forall x :: x in r <==> x in keys - rest
      invariant |r| + |rest| == |keys|
      decreases |rest|
    {
      var k :| k in rest;
      r := Insert(k, r);
      rest := rest - {k};
    }
  }

  /** The head of a sorted list is below everything else in it. */
  lemma HeadIsLeast(a: seq<string>, x: string)
    requires Sorted(a) && x in a
    ensures x == a[0] || StrLess(a[0], x)
  {
    var j :| 0 <= j < |a| && a[j] == x;
    if j > 0 { assert StrLess(a[0], a[j]); }
  }

  /** A sorted list is determined by its elements. */
  lemma {:induction false} SortedUnique(a: seq<string>, b: seq<string>)
    requires Sorted(a) && Sorted(b)
    requires forall x :: x in a <==> x in b
    ensures a == b
    decreases |a|
  {
    assert |a| > 0 ==> a[0] in b;
    assert |b| > 0 ==> b[0] in a;
    if a != [] && b != [] {
      HeadIsLeast(b, a[0]);
      HeadIsLeast(a, b[0]);
      if a[0] != b[0] {
        StrLessAsymmetric(a[0], b[0]);
      }
      forall x ensures x in a[1..] <==> x in b[1..] {
        StrLessIrreflexive(a[0]);
        if x in a[1..] {
          var j :| 1 <= j < |a| && a[j] == x;
          assert StrLess(a[0], a[j]);
          assert x in a && x in b;
          var k :| 0 <= k < |b| && b[k] == x;
          assert k != 0 && b[1..][k - 1] == x;
        }
        if x in b[1..] {
          var j :| 1 <= j < |b| && b[j] == x;
          assert StrLess(b[0], b[j]);
          assert x in b && x in a;
          var k :| 0 <= k < |a| && a[k] == x;
          assert k != 0 && a[1..][k - 1] == x;
        }
      }
      SortedUnique(a[1..], b[1..]);
    }
  }

  /** The sorted list of a set's elements; a sorted list is unique, so this
      is the list whatever order the elements are visited in. */
  ghost function SortedSet(s: set<string>): (r: seq<string>)
    ensures Sorted(r) && |r| == |s|
    ensures forall x :: x in r <==> x in s
    decreases |s|
  {
    if s == {} then []
    else
      var x :| x in s;
      Insert(x, SortedSet(s - {x}))
  }

  /** Go's `slices.Sort` on a list without duplicates. */
  method Sort(s: seq<string>) returns (r: seq<string>)
    requires forall i, j :: 0 <= i < j < |s| ==> s[i] != s[j]
    ensures Sorted(r) && |r| == |s|
    ensures forall x :: x in r <==> x in s
  {
    r := [];
    for i := 0 to |s|
      invariant Sorted(r) && |r| == i
      invariant forall x :: x in r <==> x in s[..i]
    {
      assert s[i] !in s[..i];
      r := Insert(s[i], r);
      assert s[..i + 1] == s[..i] + [s[i]];
    }
    assert s[..|s|] == s;
  }

  /** A loop that rewrites every value of a map in place, in whatever
      order the keys are visited: Python's `for k, v in d.items()` updating
      `v`, and Go's `for k, v := range m { ...; m[k] = v }`. */
  method FillEach<P>(packages: map<string, P>, fill: (string, P) -> P) returns (r: map<string, P>)
    ensures r.Keys == packages.Keys
    ensures forall k :: k in packages ==> r[k] == fill(k, packages[k])
  {
    r := packages;
    var todo := packages.Keys;
    while todo != {}
      invariant todo <= packages.Keys && r.Keys == packages.Keys
      invariant forall k :: k in packages ==> r[k] == (if k in todo then packages[k] else fill(k, packages[k]))
      decreases |todo|
    {
      var k :| k in todo;
      r := r[k := fill(k, r[k])];
      todo := todo - {k};
    }
  }

  // ---------------------------------------------------------------------
  // Go's `strings.NewReplacer(old1, new1, ...).Replace(s)`

  /** The first pair, in argument order, whose old text starts `s`. */
  function FirstKey(pairs: seq<(string, string)>, s: string, from: nat): (r: Option<nat>)
    requires from <= |pairs|
    ensures r.Some? ==> from <= r.value < |pairs| && StartsWith(s, pairs[r.value].0)
    ensures r.Some? ==> forall j :: from <= j < r.value ==> !StartsWith(s, pairs[j].0)
    ensures r.None? ==> forall j :: from <= j < |pairs| ==> !StartsWith(s, pairs[j].0)
    decreases |pairs| - from
  {
    if from == |pairs| then None
    else if StartsWith(s, pairs[from].0) then Some(from)
    else FirstKey(pairs, s, from + 1)
  }

  predicate NonEmptyKeys(pairs: seq<(string, string)>) {
    forall i :: 0 <= i < |pairs| ==> pairs[i].0 != ""
  }

  /** One pass from left to right: at each position the first old text (in
      argument order) found there is replaced and the pass resumes after
      it; a position where none is found is copied. Replacement text is
      never scanned again. */
  function Replace(pairs: seq<(string, string)>, s: string): string
    requires NonEmptyKeys(pairs)
    decreases |s|
  {
    if s == [] then []
    else match FirstKey(pairs, s, 0)
      case Some(i) => pairs[i].1 + Replace(pairs, s[|pairs[i].0|..])
      case None => [s[0]] + Replace(pairs, s[1..])
  }

  /** No old text begins with `c`. */
  predicate Inert(pairs: seq<(string, string)>, c: char) {
    forall i :: 0 <= i < |pairs| ==> pairs[i].0 == "" || pairs[i].0[0] != c
  }

  /** Text none of whose characters begins an old text is copied. */
  lemma {:induction false} ReplaceInert(pairs: seq<(string, string)>, a: string, b: string)
    requires NonEmptyKeys(pairs)
    requires forall k :: 0 <= k < |a| ==> Inert(pairs, a[k])
    ensures Replace(pairs, a + b) == a + Replace(pairs, b)
    decreases |a|
  {
    if a == [] {
      assert a + b == b;
    } else {
      var s := a + b;
      forall j | 0 <= j < |pairs| ensures !StartsWith(s, pairs[j].0) {
        assert s[0] == a[0];
        assert |pairs[j].0| <= |s| ==> s[..|pairs[j].0|][0] == s[0];
      }
      assert FirstKey(pairs, s, 0).None?;
      assert s[1..] == a[1..] + b;
      ReplaceInert(pairs, a[1..], b);
      calc {
        Replace(pairs, s);
        [s[0]] + Replace(pairs, s[1..]);
        [a[0]] + (a[1..] + Replace(pairs, b));
        { assert [a[0]] + a[1..] == a; }
        a + Replace(pairs, b);
      }
    }
  }

  /** Every old text begins with `{`. */
  predicate BraceKeys(pairs: seq<(string, string)>) {
    forall i :: 0 <= i < |pairs| ==> |pairs[i].0| > 0 && pairs[i].0[0] == '{'
  }

  /** Text without `{` is copied when every old text begins with `{`. */
  lemma ReplaceNoBrace(pairs: seq<(string, string)>, a: string, b: string)
    requires BraceKeys(pairs) && '{' !in a
    ensures Replace(pairs, a + b) == a + Replace(pairs, b)
  {
    forall k | 0 <= k < |a| ensures Inert(pairs, a[k]) {
      assert a[k] != '{';
    }
    ReplaceInert(pairs, a, b);
  }

  /** An old text that no earlier pair's old text starts is replaced by its
      new text, and the pass goes on right after it. */
  lemma ReplaceAtKey(pairs: seq<(string, string)>, i: nat, b: string)
    requires NonEmptyKeys(pairs) && i < |pairs|
    requires forall j :: 0 <= j < i ==> !StartsWith(pairs[i].0 + b, pairs[j].0)
    ensures Replace(pairs, pairs[i].0 + b) == pairs[i].1 + Replace(pairs, b)
  {
    var s := pairs[i].0 + b;
    assert s[..|pairs[i].0|] == pairs[i].0;
    assert FirstKey(pairs, s, 0) == Some(i);
    assert s[|pairs[i].0|..] == b;
  }

  lemma DiffersAt(s: string, key: string, k: nat)
    requires k < |key| && k < |s| && s[k] != key[k]
    ensures !StartsWith(s, key)
  {
    assert |key| <= |s| ==> s[..|key|][k] == s[k];
  }

  // ---------------------------------------------------------------------
  // Command output

  /** The lines of command output handed on one by one: each line trimmed,
      the empty ones left out. */
  function Trimmed(lines: seq<string>): (r: seq<string>)
    ensures forall i :: 0 <= i < |r| ==> r[i] != ""
    ensures |r| <= |lines|
  {
    NonEmpty(Mapped(lines, TrimSpace), 0)
  }

  /** The texts `f` makes of the lines, one by one. */
  function Mapped(raw: seq<string>, f: string -> string): (ts: seq<string>)
    ensures |ts| == |raw|
  {
    seq(|raw|, j requires 0 <= j < |raw| => f(raw[j]))
  }

  lemma MappedSnoc(raw: seq<string>, f: string -> string)
    requires raw != []
    ensures Mapped(raw, f) == Mapped(raw[..|raw| - 1], f) + [f(raw[|raw| - 1])]
  {
  }

  /** The non-empty texts from index `from` on, in order. */
  function NonEmpty(ts: seq<string>, from: nat): (r: seq<string>)
    requires from <= |ts|
    ensures forall i :: 0 <= i < |r| ==> r[i] != ""
    ensures |r| <= |ts| - from
    decreases |ts| - from
  {
    if from == |ts| then []
    else (if ts[from] == "" then [] else [ts[from]]) + NonEmpty(ts, from + 1)
  }

  function OutputLines(out: string): seq<string> {
    Trimmed(Lines(out))
  }

  /** The union of a sequence of sets. */
  function Union(sets: seq<set<string>>): (r: set<string>)
    ensures forall i :: 0 <= i < |sets| ==> sets[i] <= r
    ensures forall x :: x in r ==> exists i :: 0 <= i < |sets| && x in sets[i]
  {
    if sets == [] then {}
    else
      var n := |sets| - 1;
      var front := sets[..n];
      assert forall i :: 0 <= i < n ==> sets[i] == front[i];
      Union(front) + sets[n]
  }

  // ---------------------------------------------------------------------
  // Loops that stop at the first failure

  /** The results of `f` on the keys in order, or the first failure. */
  function MapResults<X, E>(keys: seq<string>, f: string -> Result<X, E>): Result<seq<X>, E> {
    if keys == [] then Ok([])
    else
      match MapResults(keys[..|keys| - 1], f)
      case Err(e) => Err(e)
      case Ok(xs) =>
        match f(keys[|keys| - 1])
        case Err(e) => Err(e)
        case Ok(x) => Ok(xs + [x])
  }

  /** One more key that succeeds extends the results by its own. */
  lemma MapResultsStep<X, E>(keys: seq<string>, i: nat, f: string -> Result<X, E>, xs: seq<X>)
    requires i < |keys| && MapResults(keys[..i], f) == Ok(xs) && f(keys[i]).Ok?
    ensures MapResults(keys[..i + 1], f) == Ok(xs + [f(keys[i]).value])
  {
    assert keys[..i + 1][..i] == keys[..i];
  }

  /** A failure among the first keys is the failure of the whole loop. */
  lemma {:induction false} MapResultsFailsFrom<X, E>(keys: seq<string>, n: nat, f: string -> Result<X, E>)
    requires n <= |keys| && MapResults(keys[..n], f).Err?
    ensures MapResults(keys, f) == MapResults(keys[..n], f)
    decreases |keys| - n
  {
    if n < |keys| {
      var m := |keys| - 1;
      assert keys[..m][..n] == keys[..n];
      MapResultsFailsFrom(keys[..m], n, f);
    } else {
      assert keys[..n] == keys;
    }
  }

  /** The loop gives one result per key, the key's own; it fails with the
      failure of the first key that fails. */
  lemma {:induction false} MapResultsSpec<X, E>(keys: seq<string>, f: string -> Result<X, E>)
    ensures var r := MapResults(keys, f);
      r.Ok? ==> |r.value| == |keys| && forall i :: 0 <= i < |keys| ==> f(keys[i]) == Ok(r.value[i])
    ensures var r := MapResults(keys, f);
      r.Err? ==> exists i :: 0 <= i < |keys| && f(keys[i]) == Err(r.error) && forall j :: 0 <= j < i ==> f(keys[j]).Ok?
  {
    if keys != [] {
      var m := |keys| - 1;
      var front := keys[..m];
      MapResultsSpec(front, f);
      assert forall i :: 0 <= i < m ==> front[i] == keys[i];
    }
  }

  /** When no key fails, the loop succeeds. */
  lemma {:induction false} MapResultsSucceeds<X, E>(keys: seq<string>, f: string -> Result<X, E>)
    requires forall i :: 0 <= i < |keys| ==> f(keys[i]).Ok?
    ensures MapResults(keys, f).Ok?
  {
    if keys != [] {
      var m := |keys| - 1;
      var front := keys[..m];
      assert forall i :: 0 <= i < m ==> front[i] == keys[i];
      MapResultsSucceeds(front, f);
    }
  }
}
