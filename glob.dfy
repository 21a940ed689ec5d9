/** Python's `fnmatch.fnmatchcase`: a case-sensitive shell-style wildcard
    match of a whole name (the pattern notation of POSIX.1-2017, XCU
    section 2.13.1, as Python reads it): `*` matches any run of characters,
    `?` any one character, `[...]` one character of a class (`[!...]`
    negated, `a-z` a range), and every other character itself. A `[` without
    a closing `]` is an ordinary character. */
module Glob {
  import opened Common

  datatype Token =
    | Star
    | AnyChar
    | Lit(c: char)
    | Class(negated: bool, items: string)

  /** Where the `]` closing the class opened by `p[0] == '['` is: after an
      optional `!` a leading `]` belongs to the class. */
  function ClassEnd(p: string): (r: Option<nat>)
    requires |p| > 0 && p[0] == '['
    ensures r.Some? ==> 1 <= r.value < |p| && p[r.value] == ']'
  {
    var j := if 1 < |p| && p[1] == '!' then 2 else 1;
    var j' := if j < |p| && p[j] == ']' then j + 1 else j;
    match IndexOf(p[j'..], ']')
    case None => None
    case Some(k) => Some(j' + k)
  }

  /** The pattern read as a sequence of tokens. */
  function Tokens(p: string): seq<Token>
    decreases |p|
  {
    if p == [] then []
    else if p[0] == '*' then [Star] + Tokens(p[1..])
    else if p[0] == '?' then [AnyChar] + Tokens(p[1..])
    else if p[0] == '[' then
      match ClassEnd(p)
      case None => [Lit('[')] + Tokens(p[1..])
      case Some(e) =>
        var body := p[1..e];
        var tok := if |body| > 0 && body[0] == '!' then Class(true, body[1..]) else Class(false, body);
        [tok] + Tokens(p[e + 1..])
    else [Lit(p[0])] + Tokens(p[1..])
  }

  /** Whether a class's items (single characters and `x-y` ranges) hold `c`. */
  predicate InClass(items: string, c: char)
    decreases |items|
  {
    if |items| == 0 then false
    else if |items| >= 3 && items[1] == '-' then (items[0] <= c <= items[2]) || InClass(items[3..], c)
    else items[0] == c || InClass(items[1..], c)
  }

  predicate TokenMatches(t: Token, c: char)
    requires !t.Star?
  {
    match t
    case AnyChar => true
    case Lit(d) => c == d
    case Class(negated, items) => InClass(items, c) != negated
  }

  /** Whether the tokens match the whole of `s`. */
  predicate Matches(toks: seq<Token>, s: string)
    decreases |toks|, |s|
  {
    if toks == [] then s == []
    else if toks[0].Star? then exists k :: 0 <= k <= |s| && Matches(toks[1..], s[k..])
    else |s| > 0 && TokenMatches(toks[0], s[0]) && Matches(toks[1..], s[1..])
  }

  /** `fnmatchcase(name, pat)`. */
  predicate FnMatchCase(name: string, pat: string) {
    Matches(Tokens(pat), name)
  }

  /** A character that stands for itself in a pattern. */
  predicate Plain(c: char) { c != '*' && c != '?' && c != '[' }

  lemma {:induction false} PlainTokens(p: string)
    requires forall i :: 0 <= i < |p| ==> Plain(p[i])
    ensures Tokens(p) == seq(|p|, i requires 0 <= i < |p| => Lit(p[i]))
    decreases |p|
  {
    if p != [] { PlainTokens(p[1..]); }
  }

  lemma {:induction false} LiteralsMatch(p: string, s: string)
    ensures Matches(seq(|p|, i requires 0 <= i < |p| => Lit(p[i])), s) <==> s == p
    decreases |p|
  {
    var toks := seq(|p|, i requires 0 <= i < |p| => Lit(p[i]));
    if p != [] {
      assert toks[1..] == seq(|p[1..]|, i requires 0 <= i < |p[1..]| => Lit(p[1..][i]));
      if |s| > 0 {
        LiteralsMatch(p[1..], s[1..]);
        assert s == [s[0]] + s[1..] && p == [p[0]] + p[1..];
      }
    }
  }

  /** A pattern without wildcards matches exactly itself: the match is
      case-sensitive, character for character. */
  lemma PlainPatternIsEquality(p: string, s: string)
    requires forall i :: 0 <= i < |p| ==> Plain(p[i])
    ensures FnMatchCase(s, p) <==> s == p
  {
    PlainTokens(p);
    LiteralsMatch(p, s);
  }

  /** `*` alone matches every name. */
  lemma StarMatchesAll(s: string)
    ensures FnMatchCase(s, "*")
  {
    assert Tokens("*") == [Star];
    assert Matches([], s[|s|..]);
  }

  /** A plain prefix followed by `*` matches exactly the names with that
      prefix. */
  lemma {:induction false} PrefixStar(p: string, s: string)
    requires forall i :: 0 <= i < |p| ==> Plain(p[i])
    ensures FnMatchCase(s, p + "*") <==> StartsWith(s, p)
    decreases |p|
  {
    if p == [] {
      assert p + "*" == "*";
      StarMatchesAll(s);
    } else {
      assert (p + "*")[1..] == p[1..] + "*";
      assert Tokens(p + "*") == [Lit(p[0])] + Tokens(p[1..] + "*");
      if |s| > 0 {
        PrefixStar(p[1..], s[1..]);
        assert StartsWith(s, p) <==> s[0] == p[0] && StartsWith(s[1..], p[1..]) by {
          if |p| <= |s| { assert s[..|p|] == [s[0]] + s[1..][..|p| - 1]; }
        }
      }
    }
  }
}
