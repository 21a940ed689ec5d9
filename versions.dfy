/** The part of PEP 440 (the `packaging.version.Version` class) that the tag
    resolver relies on: final releases `N(.N)*`, with an optional leading
    `v`, their normalised rendering and their order, in which trailing zero
    components do not count (`1.0 == 1`). */
module Versions {
  import opened Common

  /** A final release: its release segment. */
  datatype Version = Version(release: seq<nat>)

  /** `Version("0")`, the value a rejected tag is given. */
  const Zero := Version([0])

  predicate IsDigit(c: char) { '0' <= c <= '9' }

  predicate IsNumeral(s: string) {
    |s| > 0 && forall i :: 0 <= i < |s| ==> IsDigit(s[i])
  }

  predicate AllNumerals(parts: seq<string>) {
    forall i :: 0 <= i < |parts| ==> IsNumeral(parts[i])
  }

  function NumeralValue(s: string): nat
    requires forall i :: 0 <= i < |s| ==> IsDigit(s[i])
  {
    if |s| == 0 then 0
    else
      var d := s[|s| - 1];
      assert IsDigit(d);
      NumeralValue(s[..|s| - 1]) * 10 + (d as int - '0' as int)
  }

  /** The decimal numeral of `n`, as Python's `str(int)` writes it. */
  function Decimal(n: nat): (s: string)
    ensures IsNumeral(s) && NumeralValue(s) == n
    ensures |s| > 1 ==> s[0] != '0'
  {
    if n < 10 then [('0' as int + n) as char]
    else
      var s := Decimal(n / 10) + [('0' as int + n % 10) as char];
      assert s[..|s| - 1] == Decimal(n / 10);
      s
  }

  /** The text after an optional leading `v` or `V`. */
  function WithoutPrefix(s: string): string {
    if |s| > 0 && (s[0] == 'v' || s[0] == 'V') then s[1..] else s
  }

  /** `Version(s)`: `Ok` for an optional `v` followed by dot-separated
      numerals; everything else is `InvalidVersion`, carried as the text. */
  function Parse(s: string): (r: Result<Version, string>)
    ensures r.Ok? ==> |r.value.release| == |Split(WithoutPrefix(s), '.')| >= 1
    ensures r.Ok? <==> AllNumerals(Split(WithoutPrefix(s), '.'))
    ensures r.Ok? ==> forall i :: 0 <= i < |r.value.release| ==> r.value.release[i] == NumeralValue(Split(WithoutPrefix(s), '.')[i])
    ensures r.Err? ==> r.error == s
  {
    var parts := Split(WithoutPrefix(s), '.');
    if AllNumerals(parts) then
      Ok(Version(seq(|parts|, i requires 0 <= i < |parts| => NumeralValue(parts[i]))))
    else
      Err(s)
  }

  /** `str(Version)`: the components joined by dots, without leading zeros. */
  function Render(v: Version): string {
    Join(Numerals(v.release), ".")
  }

  function Numerals(r: seq<nat>): (ns: seq<string>)
    ensures |ns| == |r|
    ensures forall i :: 0 <= i < |r| ==> ns[i] == Decimal(r[i])
  {
    seq(|r|, i requires 0 <= i < |r| => Decimal(r[i]))
  }

  /** Rendering a version and parsing the text gives the version back. */
  lemma ParseRender(v: Version)
    requires |v.release| >= 1
    ensures Parse(Render(v)) == Ok(v)
  {
    var ns := Numerals(v.release);
    forall i | 0 <= i < |ns| ensures '.' !in ns[i] {
      assert IsNumeral(ns[i]);
    }
    SplitJoin(ns, '.');
    JoinHead(ns, ".");
    assert IsDigit(Render(v)[0]);
    assert WithoutPrefix(Render(v)) == Render(v);
    var parts := Split(Render(v), '.');
    assert parts == ns;
    assert forall i :: 0 <= i < |parts| ==> IsNumeral(parts[i]);
    var r := Parse(Render(v)).value.release;
    assert |r| == |v.release|;
    assert forall i :: 0 <= i < |r| ==> r[i] == NumeralValue(Decimal(v.release[i])) == v.release[i];
    assert r == v.release;
  }

  /** `str(Version("0"))`. */
  lemma RenderZero()
    ensures Render(Zero) == "0"
  {
    assert Decimal(0) == "0";
    assert Numerals([0]) == ["0"];
  }

  /** A version with a release segment renders as non-empty text. */
  lemma RenderNonEmpty(v: Version)
    requires |v.release| >= 1
    ensures Render(v) != ""
  {
    JoinHead(Numerals(v.release), ".");
  }

  lemma JoinHead(parts: seq<string>, sep: string)
    requires |parts| >= 1 && |parts[0]| >= 1
    ensures |Join(parts, sep)| >= 1 && Join(parts, sep)[0] == parts[0][0]
  {
  }

  /** Parsing normalises: rendering a parsed version and parsing again gives
      the same version, so normalising a second time changes nothing. */
  lemma NormaliseIdempotent(s: string)
    requires Parse(s).Ok?
    ensures Parse(Render(Parse(s).value)) == Parse(s)
    ensures Render(Parse(Render(Parse(s).value)).value) == Render(Parse(s).value)
  {
    ParseRender(Parse(s).value);
  }

  // ---------------------------------------------------------------------
  // Order

  /** The release with its trailing zeros removed, which is what PEP 440
      compares. */
  function Key(r: seq<nat>): (k: seq<nat>)
    ensures |k| <= |r| && k == r[..|k|]
    ensures k == [] || k[|k| - 1] != 0
    ensures forall i :: |k| <= i < |r| ==> r[i] == 0
  {
    if |r| == 0 then []
    else if r[|r| - 1] == 0 then Key(r[..|r| - 1])
    else r
  }

  /** Python's order on tuples of integers. */
  predicate TupleLess(a: seq<nat>, b: seq<nat>)
    decreases |a|
  {
    if |a| == 0 then |b| > 0
    else |b| > 0 && (a[0] < b[0] || (a[0] == b[0] && TupleLess(a[1..], b[1..])))
  }

  /** `v < w`. */
  predicate Less(v: Version, w: Version) {
    TupleLess(Key(v.release), Key(w.release))
  }

  /** `v == w`: the releases agree once padded with zeros. */
  predicate Same(v: Version, w: Version) {
    Key(v.release) == Key(w.release)
  }

  lemma {:induction false} TupleLessIrreflexive(a: seq<nat>)
    ensures !TupleLess(a, a)
    decreases |a|
  {
    if |a| > 0 { TupleLessIrreflexive(a[1..]); }
  }

  lemma {:induction false} TupleLessTransitive(a: seq<nat>, b: seq<nat>, c: seq<nat>)
    requires TupleLess(a, b) && TupleLess(b, c)
    ensures TupleLess(a, c)
    decreases |a|
  {
    if |a| > 0 && a[0] == b[0] && b[0] == c[0] {
      TupleLessTransitive(a[1..], b[1..], c[1..]);
    }
  }

  lemma {:induction false} TupleLessTotal(a: seq<nat>, b: seq<nat>)
    requires a != b
    ensures TupleLess(a, b) || TupleLess(b, a)
    decreases |a|
  {
    if |a| > 0 && |b| > 0 && a[0] == b[0] {
      assert a == [a[0]] + a[1..] && b == [b[0]] + b[1..];
      TupleLessTotal(a[1..], b[1..]);
    }
  }

  lemma LessIrreflexive(v: Version)
    ensures !Less(v, v)
  {
    TupleLessIrreflexive(Key(v.release));
  }

  lemma LessTransitive(u: Version, v: Version, w: Version)
    requires Less(u, v) && Less(v, w)
    ensures Less(u, w)
  {
    TupleLessTransitive(Key(u.release), Key(v.release), Key(w.release));
  }

  /** Any two versions are ordered or equal. */
  lemma LessTrichotomy(v: Version, w: Version)
    ensures Less(v, w) || Less(w, v) || Same(v, w)
  {
    if !Same(v, w) { TupleLessTotal(Key(v.release), Key(w.release)); }
  }

  lemma {:induction false} KeyPadded(r: seq<nat>)
    ensures Key(r + [0]) == Key(r)
  {
    assert (r + [0])[..|r|] == r;
  }

  /** Trailing zeros do not change a version: `1.2 == 1.2.0`. */
  lemma ZeroPadding(r: seq<nat>)
    ensures Same(Version(r + [0]), Version(r))
    ensures forall w :: Less(Version(r + [0]), w) <==> Less(Version(r), w)
  {
    KeyPadded(r);
  }

  /** Nothing is below `0`, and `0` is below exactly the versions with a
      non-zero component. */
  lemma ZeroIsLeast(v: Version)
    ensures !Less(v, Zero)
    ensures Less(Zero, v) <==> exists i :: 0 <= i < |v.release| && v.release[i] != 0
  {
    assert Key(Zero.release) == [];
    var k := Key(v.release);
    if k != [] {
      assert v.release[|k| - 1] == k[|k| - 1] != 0;
    } else {
      assert forall i :: 0 <= i < |v.release| ==> v.release[i] == 0;
    }
  }
}
