/** The release and tag resolver of builder/utils.py: turning a match rule
    into a test on names, giving every accepted name a version, and choosing
    a release (the first that passes, in listing order) or a tag (the first
    of the greatest versions).

    The GitHub listings are inputs. The regular-expression engine is left
    abstract: a rule `/p/` is compiled as `^p$`, and what the engine does
    with that text is a parameter. Python truthiness of a parsed version is a
    parameter too: `packaging`'s `Version` defines no `__bool__`, so as the
    code is written every version is truthy (`AllTruthy`); `ZeroFalsy` is the
    reading under which `Version("0")` would be false. */
module Resolver {
  import opened Common
  import opened Versions
  import Glob

  // ---------------------------------------------------------------------
  // Inputs

  datatype AssetFile = AssetFile(name: string, downloadUrl: string)

  /** A GitHub release: its tag, its title, whether it is a prerelease, and
      its assets. */
  datatype Release = Release(tagName: string, name: string, prerelease: bool, assets: seq<AssetFile>)

  /** What the GitHub API lists for one repository: its releases newest
      first, its tags, and the latest non-prerelease release, if any. */
  datatype Listing = Listing(releases: seq<Release>, tags: seq<string>, latest: Option<Release>)

  /** The repositories GitHub knows; asking about any other one fails. */
  datatype GitHub = GitHub(repos: map<string, Listing>)

  /** A successful `search`: the text matched (group 0), the named groups and
      the numbered groups 1, 2, ... in order, `None` for a group that took no
      part in the match. */
  datatype RegexMatch = RegexMatch(whole: string, groups: map<string, Option<string>>, numbered: seq<Option<string>>)

  /** The regular-expression engine: which texts compile and what a compiled
      expression finds in a name. */
  datatype RegexEngine = RegexEngine(compiles: string -> bool, search: (string, string) -> Option<RegexMatch>)

  /** Whether a value that Python tests with `if` counts as true. */
  datatype Truthiness = AllTruthy | ZeroFalsy

  predicate Truthy(v: Version, t: Truthiness) {
    t == AllTruthy || Less(Zero, v)
  }

  datatype Error =
    | BadRepoName(repo: string)
    | RegexError(regex: string)
    | InvalidVersion(text: string)
    | NoVersionGroup
    | VersionGroupUnset
    | NotFound(repo: string)
    | CouldNotParse(repo: string, tag: string)
    | NoMatchingRelease(repo: string, rule: string)
    | NoMatchingTag(repo: string, tagRule: Option<string>)

  // ---------------------------------------------------------------------
  // Matching

  /** The tests `_match_fn` returns: `bool`, a compiled `search`,
      `fnmatchcase` with the pattern, and equality with the text. */
  datatype Matcher = Truth | Search(regex: string) | FnMatch(pattern: string) | Equals(text: string)

  /** What a test returns: something false (`False`, `None`), `True`, or a
      match object. */
  datatype Verdict = Rejected | Accepted | Matched(m: RegexMatch)

  function Test(t: Matcher, name: string, e: RegexEngine): Verdict {
    match t
    case Truth => if name == "" then Rejected else Accepted
    case Search(rx) =>
      var found := e.search(rx, name);
      if found.None? then Rejected else Matched(found.value)
    case FnMatch(p) => if Glob.FnMatchCase(name, p) then Accepted else Rejected
    case Equals(text) => if text == name then Accepted else Rejected
  }

  predicate IsRegexRule(rule: string) {
    StartsWith(rule, "/") && EndsWith(rule, "/")
  }

  /** `rule[1:-1]`. */
  function Inner(rule: string): string {
    if |rule| >= 2 then rule[1..|rule| - 1] else ""
  }

  /** `_match_fn(match)`: compiling a regular expression may fail. */
  function MatchFn(rule: Option<string>, e: RegexEngine): Result<Matcher, Error> {
    if rule.None? || rule.value == "" then Ok(Truth)
    else NonEmptyMatcher(rule.value, e)
  }

  function NonEmptyMatcher(rule: string, e: RegexEngine): Result<Matcher, Error> {
    if IsRegexRule(rule) then
      var rx := "^" + Inner(rule) + "$";
      if e.compiles(rx) then Ok(Search(rx)) else Err(RegexError(rx))
    else if '*' in rule then Ok(FnMatch(rule))
    else Ok(Equals(rule))
  }

  /** What each shape of rule accepts. No rule, or an empty one, accepts the
      non-empty names; a `/.../` rule yields the match object the engine
      finds for the inner expression between `^` and `$` (which is not always
      the whole name: `^a|b$` finds `a` in `ax`, and `$` also matches before
      a final newline); a rule with `*` is a
      wildcard match and any other rule an equality test, and those two give
      only `True` or `False`. */
  lemma RuleSemantics(rule: Option<string>, name: string, e: RegexEngine)
    requires MatchFn(rule, e).Ok?
    ensures rule.None? || rule.value == "" ==>
      Test(MatchFn(rule, e).value, name, e) == (if name == "" then Rejected else Accepted)
    ensures rule.Some? && rule.value != "" && IsRegexRule(rule.value) ==>
      var v := Test(MatchFn(rule, e).value, name, e);
      (v.Matched? <==> e.search("^" + Inner(rule.value) + "$", name).Some?)
      && (v.Matched? ==> v.m == e.search("^" + Inner(rule.value) + "$", name).value) && !v.Accepted?
    ensures rule.Some? && rule.value != "" && !IsRegexRule(rule.value) && '*' in rule.value ==>
      Test(MatchFn(rule, e).value, name, e) == (if Glob.FnMatchCase(name, rule.value) then Accepted else Rejected)
    ensures rule.Some? && rule.value != "" && !IsRegexRule(rule.value) && '*' !in rule.value ==>
      Test(MatchFn(rule, e).value, name, e) == (if name == rule.value then Accepted else Rejected)
  {
  }

  /** The matcher `get_release` builds inline for a non-empty rule (lines
      86-92), written out as it stands there. */
  function InlineMatcher(rule: string, e: RegexEngine): Result<Matcher, Error> {
    if StartsWith(rule, "/") && EndsWith(rule, "/") then
      var regex := "^" + Inner(rule) + "$";
      if e.compiles(regex) then Ok(Search(regex)) else Err(RegexError(regex))
    else if '*' in rule then Ok(FnMatch(rule))
    else Ok(Equals(rule))
  }

  /** The inline matcher of `get_release` is `_match_fn`. */
  lemma InlineIsMatchFn(rule: string, e: RegexEngine)
    requires rule != ""
    ensures InlineMatcher(rule, e) == MatchFn(Some(rule), e)
  {
  }

  // ---------------------------------------------------------------------
  // Versions of names

  /** `_parse_version(tag, test)` given the test's verdict on the tag. */
  function ParseVersion(tag: string, verdict: Verdict): Result<Version, Error> {
    match verdict
    case Rejected => Ok(Zero)
    case Accepted => ParseText(LStrip(tag, 'v'))
    case Matched(m) =>
      if "version" !in m.groups then Err(NoVersionGroup)
      else match m.groups["version"]
        case None => Err(VersionGroupUnset)
        case Some(s) => ParseText(s)
  }

  function ParseText(s: string): Result<Version, Error> {
    match Parse(s)
    case Ok(v) => Ok(v)
    case Err(text) => Err(InvalidVersion(text))
  }

  /** Every version `_parse_version` returns has a release segment. */
  lemma ParsedHasRelease(tag: string, verdict: Verdict)
    ensures ParseVersion(tag, verdict).Ok? ==> |ParseVersion(tag, verdict).value.release| >= 1
  {
  }

  /** A rejected name is given `0` and kept: `_parse_version` never drops a
      name. */
  lemma RejectedIsZero(tag: string, t: Matcher, e: RegexEngine)
    requires Test(t, tag, e).Rejected?
    ensures ParseVersion(tag, Test(t, tag, e)) == Ok(Zero)
  {
  }

  /** A `True` verdict strips every leading `v`, however many there are
      (`vv1.2` is version `1.2`), where `Version` itself would accept one. */
  lemma EveryLeadingVStripped(n: nat, s: string)
    requires s == [] || s[0] != 'v'
    ensures ParseVersion(Repeat('v', n) + s, Accepted) == ParseText(s)
  {
    LStripRun(n, s, 'v');
  }

  /** A `True` verdict on a name that is not a version is an error. */
  lemma AcceptedJunkIsInvalid()
    ensures ParseVersion("latest", Accepted) == Err(InvalidVersion("latest"))
  {
    assert LStrip("latest", 'v') == "latest";
    assert WithoutPrefix("latest") == "latest";
    SplitNone("latest", '.');
    assert !IsNumeral(Split(WithoutPrefix("latest"), '.')[0]) by {
      assert !IsDigit("latest"[0]);
    }
  }

  // ---------------------------------------------------------------------
  // get_release

  /** The repository name must contain a `/` (`repo.split("/", 1)`). */
  predicate HasOwner(repo: string) { '/' in repo }

  /** How a name is given a version: the test's verdict, parsed. */
  type Versioning = string -> Result<Version, Error>

  function VersionOf(t: Matcher, e: RegexEngine): Versioning {
    tag => ParseVersion(tag, Test(t, tag, e))
  }

  /** The scan of `get_release`: the first release that is not a
      prerelease and whose version is truthy; an error from parsing stops
      the scan; `None` when the listing is exhausted. */
  function Select(rs: seq<Release>, version: Versioning, truth: Truthiness): Result<Option<(Release, Version)>, Error>
    decreases |rs|
  {
    if rs == [] then Ok(None)
    else if rs[0].prerelease then Select(rs[1..], version, truth)
    else match version(rs[0].tagName)
      case Err(err) => Err(err)
      case Ok(v) => if Truthy(v, truth) then Ok(Some((rs[0], v))) else Select(rs[1..], version, truth)
  }

  /** `get_release(gh, repo, match)`: the release and `str` of its version. */
  function GetReleaseSpec(gh: GitHub, repo: string, rule: Option<string>, e: RegexEngine, truth: Truthiness): Result<(Release, string), Error> {
    if !HasOwner(repo) then Err(BadRepoName(repo))
    else if rule.None? || rule.value == "" then
      if repo !in gh.repos || gh.repos[repo].latest.None? then Err(NotFound(repo))
      else
        var rls := gh.repos[repo].latest.value;
        match ParseVersion(rls.tagName, Test(Truth, rls.tagName, e))
        case Err(err) => Err(err)
        case Ok(v) => if Truthy(v, truth) then Ok((rls, Render(v))) else Err(CouldNotParse(repo, rls.tagName))
    else
      match InlineMatcher(rule.value, e)
      case Err(err) => Err(err)
      case Ok(t) =>
        if repo !in gh.repos then Err(NotFound(repo))
        else match Select(gh.repos[repo].releases, VersionOf(t, e), truth)
          case Err(err) => Err(err)
          case Ok(None) => Err(NoMatchingRelease(repo, rule.value))
          case Ok(Some(found)) => Ok((found.0, Render(found.1)))
  }

  /** `get_release`, scanning the listing as the source does. */
  method GetRelease(gh: GitHub, repo: string, rule: Option<string>, e: RegexEngine, truth: Truthiness)
    returns (r: Result<(Release, string), Error>)
    ensures r == GetReleaseSpec(gh, repo, rule, e, truth)
  {
    var (_, _, split) := Cut(repo, '/');
    if !split {
      return Err(BadRepoName(repo));
    }

    if rule.None? || rule.value == "" {
      if repo !in gh.repos || gh.repos[repo].latest.None? {
        return Err(NotFound(repo));
      }
      var rls := gh.repos[repo].latest.value;
      var ver :- ParseVersion(rls.tagName, Test(Truth, rls.tagName, e));
      if Truthy(ver, truth) {
        return Ok((rls, Render(ver)));
      }
      return Err(CouldNotParse(repo, rls.tagName));
    }

    var t :- InlineMatcher(rule.value, e);
    if repo !in gh.repos {
      return Err(NotFound(repo));
    }
    var rs := gh.repos[repo].releases;
    var i := 0;
    while i < |rs|
      invariant 0 <= i <= |rs|
      invariant Select(rs, VersionOf(t, e), truth) == Select(rs[i..], VersionOf(t, e), truth)
    {
      var rls := rs[i];
      if rls.prerelease {
        i := i + 1;
        continue;
      }
      var ver :- ParseVersion(rls.tagName, Test(t, rls.tagName, e));
      if Truthy(ver, truth) {
        return Ok((rls, Render(ver)));
      }
      i := i + 1;
    }
    return Err(NoMatchingRelease(repo, rule.value));
  }

  /** A release the scan goes past: a prerelease, or one whose version parses
      and is falsy. */
  predicate Passed(rel: Release, version: Versioning, truth: Truthiness) {
    rel.prerelease
    || (version(rel.tagName).Ok?
        && !Truthy(version(rel.tagName).value, truth))
  }

  /** What the scan returns: a release at some position that is not a
      prerelease and whose version is truthy, every release before it being
      one the scan goes past. */
  lemma {:induction false} SelectFirst(rs: seq<Release>, version: Versioning, truth: Truthiness)
    requires Select(rs, version, truth).Ok? && Select(rs, version, truth).value.Some?
    ensures var (rel, v) := Select(rs, version, truth).value.value;
      exists i :: 0 <= i < |rs| && rs[i] == rel && !rel.prerelease
        && version(rel.tagName) == Ok(v) && Truthy(v, truth)
        && (forall j :: 0 <= j < i ==> Passed(rs[j], version, truth))
    decreases |rs|
  {
    var (rel, v) := Select(rs, version, truth).value.value;
    if Passed(rs[0], version, truth) {
      SelectFirst(rs[1..], version, truth);
      var i :| 0 <= i < |rs[1..]| && rs[1..][i] == rel && !rel.prerelease
        && version(rel.tagName) == Ok(v) && Truthy(v, truth)
        && (forall j :: 0 <= j < i ==> Passed(rs[1..][j], version, truth));
      assert rs[i + 1] == rel;
      assert forall j :: 1 <= j < i + 1 ==> rs[j] == rs[1..][j - 1];
    } else {
      assert rs[0] == rel;
    }
  }

  /** The scan never looks past the release it returns, nor past the error
      that stops it: what follows in the listing changes nothing. */
  lemma {:induction false} SelectIgnoresRest(rs: seq<Release>, tail: seq<Release>, version: Versioning, truth: Truthiness)
    requires Select(rs, version, truth).Err? || Select(rs, version, truth).value.Some?
    ensures Select(rs + tail, version, truth) == Select(rs, version, truth)
    decreases |rs|
  {
    assert (rs + tail)[0] == rs[0];
    if Passed(rs[0], version, truth) {
      assert (rs + tail)[1..] == rs[1..] + tail;
      SelectIgnoresRest(rs[1..], tail, version, truth);
    }
  }

  /** Exhausting the listing is "No matching release". */
  lemma NoneMatching(gh: GitHub, repo: string, rule: string, e: RegexEngine, truth: Truthiness)
    requires HasOwner(repo) && rule != "" && repo in gh.repos
    requires InlineMatcher(rule, e).Ok?
    requires forall i :: 0 <= i < |gh.repos[repo].releases| ==> gh.repos[repo].releases[i].prerelease
    ensures GetReleaseSpec(gh, repo, Some(rule), e, truth) == Err(NoMatchingRelease(repo, rule))
  {
    AllPrereleases(gh.repos[repo].releases, VersionOf(InlineMatcher(rule, e).value, e), truth);
  }

  lemma {:induction false} AllPrereleases(rs: seq<Release>, version: Versioning, truth: Truthiness)
    requires forall i :: 0 <= i < |rs| ==> rs[i].prerelease
    ensures Select(rs, version, truth) == Ok(None)
    decreases |rs|
  {
    if rs != [] { AllPrereleases(rs[1..], version, truth); }
  }

  /** As written, the rule does not filter: every version is truthy, so the
      scan stops at the first release that is not a prerelease, whether the
      rule accepts its name or not (a rejected name comes back as `0`). */
  lemma AsWrittenStopsAtFirstRelease(rs: seq<Release>, t: Matcher, e: RegexEngine, i: nat)
    requires i < |rs| && !rs[i].prerelease
    requires forall j :: 0 <= j < i ==> rs[j].prerelease
    requires VersionOf(t, e)(rs[i].tagName).Ok?
    ensures Select(rs, VersionOf(t, e), AllTruthy) == Ok(Some((rs[i], VersionOf(t, e)(rs[i].tagName).value)))
  {
    SkipPrereleases(rs, VersionOf(t, e), AllTruthy, i);
  }

  lemma {:induction false} SkipPrereleases(rs: seq<Release>, version: Versioning, truth: Truthiness, i: nat)
    requires i <= |rs|
    requires forall j :: 0 <= j < i ==> rs[j].prerelease
    ensures Select(rs, version, truth) == Select(rs[i..], version, truth)
    decreases i
  {
    if i > 0 {
      SkipPrereleases(rs[1..], version, truth, i - 1);
      assert rs[1..][i - 1..] == rs[i..];
    }
  }

  /** Whatever the rule, the first release that is not a prerelease comes
      back when the rule rejects its name, with version `0`. */
  lemma RejectedFirstReleaseReturned(gh: GitHub, repo: string, rule: string, e: RegexEngine, t: Matcher, i: nat)
    requires HasOwner(repo) && rule != "" && repo in gh.repos && InlineMatcher(rule, e) == Ok(t)
    requires i < |gh.repos[repo].releases| && !gh.repos[repo].releases[i].prerelease
    requires forall j :: 0 <= j < i ==> gh.repos[repo].releases[j].prerelease
    requires Test(t, gh.repos[repo].releases[i].tagName, e) == Rejected
    ensures GetReleaseSpec(gh, repo, Some(rule), e, AllTruthy) == Ok((gh.repos[repo].releases[i], "0"))
  {
    var rs := gh.repos[repo].releases;
    RejectedIsZero(rs[i].tagName, t, e);
    AsWrittenStopsAtFirstRelease(rs, t, e, i);
    RenderZero();
  }

  /** A listing that shows it: the rule `foo-*` rejects `bar-v1`, yet
      `get_release` returns that release with version `0` instead of
      "No matching release". */
  lemma RejectedReleaseReturned(e: RegexEngine)
    ensures var gh := GitHub(map["o/r" := Listing([Release("bar-v1", "", false, [])], [], None)]);
      GetReleaseSpec(gh, "o/r", Some("foo-*"), e, AllTruthy) == Ok((Release("bar-v1", "", false, []), "0"))
  {
    var gh := GitHub(map["o/r" := Listing([Release("bar-v1", "", false, [])], [], None)]);
    FooRejectsBar(e);
    assert HasOwner("o/r") by { assert "o/r"[1] == '/'; }
    RejectedFirstReleaseReturned(gh, "o/r", "foo-*", e, FnMatch("foo-*"), 0);
  }

  lemma FooRejectsBar(e: RegexEngine)
    ensures InlineMatcher("foo-*", e) == Ok(FnMatch("foo-*"))
    ensures Test(FnMatch("foo-*"), "bar-v1", e) == Rejected
  {
    assert "foo-*"[0] != '/' && "foo-*"[4] == '*';
    Glob.PrefixStar("foo-", "bar-v1");
    assert "foo-" + "*" == "foo-*";
    assert "bar-v1"[..4] != "foo-" by { assert "bar-v1"[0] != 'f'; }
  }

  /** Were `Version("0")` false, the scan would return only releases the rule
      accepts and that parse to a version above `0`. */
  lemma ZeroFalsyReturnsOnlyAccepted(rs: seq<Release>, t: Matcher, e: RegexEngine)
    requires Select(rs, VersionOf(t, e), ZeroFalsy).Ok? && Select(rs, VersionOf(t, e), ZeroFalsy).value.Some?
    ensures var (rel, v) := Select(rs, VersionOf(t, e), ZeroFalsy).value.value;
      !Test(t, rel.tagName, e).Rejected? && Less(Zero, v) && rel in rs && !rel.prerelease
  {
    SelectFirst(rs, VersionOf(t, e), ZeroFalsy);
    var (rel, v) := Select(rs, VersionOf(t, e), ZeroFalsy).value.value;
    if Test(t, rel.tagName, e).Rejected? {
      LessIrreflexive(Zero);
    }
  }

  // ---------------------------------------------------------------------
  // get_tag

  /** Every tag with its version; the first error stops the list. */
  function Pairs(tags: seq<string>, version: Versioning): (r: Result<seq<(string, Version)>, Error>)
    ensures r.Ok? ==> |r.value| == |tags|
    ensures r.Ok? ==> forall i :: 0 <= i < |tags| ==> r.value[i].0 == tags[i] && version(tags[i]) == Ok(r.value[i].1)
    ensures r.Err? <==> exists i :: 0 <= i < |tags| && version(tags[i]).Err?
    decreases |tags|
  {
    if tags == [] then Ok([])
    else match version(tags[0])
      case Err(err) => Err(err)
      case Ok(v) =>
        match Pairs(tags[1..], version)
        case Err(err) =>
          ghost var i :| 0 <= i < |tags[1..]| && version(tags[1..][i]).Err?;
          assert tags[i + 1] == tags[1..][i];
          Err(err)
        case Ok(rest) =>
          assert forall i :: 1 <= i < |tags| ==> tags[i] == tags[1..][i - 1];
          Ok([(tags[0], v)] + rest)
  }

  /** The list comprehension of `get_tag`: every tag with its version; the
      first error raised stops it. */
  function TagVersions(tags: seq<string>, t: Matcher, e: RegexEngine): (r: Result<seq<(string, Version)>, Error>)
    ensures r.Ok? ==> |r.value| == |tags|
    ensures r.Ok? ==> forall i :: 0 <= i < |tags| ==>
      r.value[i].0 == tags[i] && ParseVersion(tags[i], Test(t, tags[i], e)) == Ok(r.value[i].1)
    ensures r.Err? <==> exists i :: 0 <= i < |tags| && ParseVersion(tags[i], Test(t, tags[i], e)).Err?
  {
    var version := VersionOf(t, e);
    assert forall tag :: version(tag) == ParseVersion(tag, Test(t, tag, e));
    Pairs(tags, version)
  }

  /** Position `i` holds the first of the greatest versions. */
  predicate FirstGreatest(pairs: seq<(string, Version)>, i: nat) {
    i < |pairs|
    && (forall j :: 0 <= j < |pairs| ==> !Less(pairs[i].1, pairs[j].1))
    && (forall j :: 0 <= j < i ==> Less(pairs[j].1, pairs[i].1))
  }

  /** Python's `max(pairs, key=...)` over the first `n` pairs: the position
      of the first of the greatest versions (a later pair replaces the best
      so far only when strictly greater). */
  function MaxIndex(pairs: seq<(string, Version)>, n: nat): (b: nat)
    requires 1 <= n <= |pairs|
    ensures b < n
    ensures forall j :: 0 <= j < n ==> !Less(pairs[b].1, pairs[j].1)
    ensures forall j :: 0 <= j < b ==> Less(pairs[j].1, pairs[b].1)
  {
    if n == 1 then
      LessIrreflexive(pairs[0].1);
      0
    else
      var b := MaxIndex(pairs, n - 1);
      if Less(pairs[b].1, pairs[n - 1].1) then
        forall j | 0 <= j < n ensures !Less(pairs[n - 1].1, pairs[j].1) {
          if j < n - 1 {
            if Less(pairs[n - 1].1, pairs[j].1) { LessTransitive(pairs[b].1, pairs[n - 1].1, pairs[j].1); }
          } else {
            LessIrreflexive(pairs[j].1);
          }
        }
        forall j | 0 <= j < n - 1 ensures Less(pairs[j].1, pairs[n - 1].1) {
          LessTrichotomy(pairs[j].1, pairs[b].1);
          if Less(pairs[j].1, pairs[b].1) {
            LessTransitive(pairs[j].1, pairs[b].1, pairs[n - 1].1);
          } else if Same(pairs[j].1, pairs[b].1) {
            assert Key(pairs[j].1.release) == Key(pairs[b].1.release);
          }
        }
        n - 1
      else
        b
  }

  /** `get_tag(gh, repo, match)`: the tag and `str` of its version. Every
      failure inside the `try` (an unknown repository, a name that does not
      parse, a missing group, an empty listing) becomes "No matching tag";
      a bad repository name and a regular expression that does not compile
      are raised before it. The `or Version("0")` of the key changes nothing
      under either truthiness, since a falsy version would equal `0`. */
  function GetTag(gh: GitHub, repo: string, rule: Option<string>, e: RegexEngine): Result<(string, string), Error> {
    if !HasOwner(repo) then Err(BadRepoName(repo))
    else match MatchFn(rule, e)
      case Err(err) => Err(err)
      case Ok(t) =>
        if repo !in gh.repos then Err(NoMatchingTag(repo, rule))
        else match TagVersions(gh.repos[repo].tags, t, e)
          case Err(_) => Err(NoMatchingTag(repo, rule))
          case Ok(pairs) =>
            if pairs == [] then Err(NoMatchingTag(repo, rule))
            else
              var b := MaxIndex(pairs, |pairs|);
              Ok((pairs[b].0, Render(pairs[b].1)))
  }

  /** `get_tag` returns the first tag, in listing order, of those with the
      greatest version, and `str` of that version. */
  lemma GetTagIsFirstMaximum(gh: GitHub, repo: string, rule: Option<string>, e: RegexEngine)
    requires GetTag(gh, repo, rule, e).Ok?
    ensures var (tag, ver) := GetTag(gh, repo, rule, e).value;
      var tags := gh.repos[repo].tags;
      var pairs := TagVersions(tags, MatchFn(rule, e).value, e);
      pairs.Ok? && |pairs.value| == |tags|
      && exists i :: 0 <= i < |pairs.value| && FirstGreatest(pairs.value, i)
           && tag == pairs.value[i].0 && ver == Render(pairs.value[i].1)
  {
    var tags := gh.repos[repo].tags;
    var t := MatchFn(rule, e).value;
    var pairs := TagVersions(tags, t, e).value;
    var b := MaxIndex(pairs, |pairs|);
    assert GetTag(gh, repo, rule, e) == Ok((pairs[b].0, Render(pairs[b].1)));
  }

  /** `get_tag` fails exactly when the repository name has no owner, the rule
      does not compile, the repository is unknown, the listing is empty or a
      tag does not parse. */
  lemma GetTagFailures(gh: GitHub, repo: string, rule: Option<string>, e: RegexEngine)
    requires HasOwner(repo) && MatchFn(rule, e).Ok?
    ensures GetTag(gh, repo, rule, e).Err? <==>
      repo !in gh.repos || gh.repos[repo].tags == []
      || exists i :: 0 <= i < |gh.repos[repo].tags| &&
           ParseVersion(gh.repos[repo].tags[i], Test(MatchFn(rule, e).value, gh.repos[repo].tags[i], e)).Err?
    ensures GetTag(gh, repo, rule, e).Err? ==> GetTag(gh, repo, rule, e) == Err(NoMatchingTag(repo, rule))
  {
  }

  /** As written (and unlike "no accepted tag is an error"), a listing in
      which the rule accepts nothing gives its first tag with version `0`. */
  lemma AllRejectedGivesFirstTag(gh: GitHub, repo: string, rule: Option<string>, e: RegexEngine)
    requires HasOwner(repo) && MatchFn(rule, e).Ok? && repo in gh.repos && gh.repos[repo].tags != []
    requires forall i :: 0 <= i < |gh.repos[repo].tags| ==>
      Test(MatchFn(rule, e).value, gh.repos[repo].tags[i], e).Rejected?
    ensures GetTag(gh, repo, rule, e) == Ok((gh.repos[repo].tags[0], "0"))
  {
    var tags := gh.repos[repo].tags;
    var t := MatchFn(rule, e).value;
    assert forall i :: 0 <= i < |tags| ==> ParseVersion(tags[i], Test(t, tags[i], e)) == Ok(Zero);
    var pairs := TagVersions(tags, t, e).value;
    var b := MaxIndex(pairs, |pairs|);
    LessIrreflexive(Zero);
    assert pairs[0].1 == Zero && pairs[b].1 == Zero;
    assert b == 0;
    RenderZero();
  }

  /** The version text either resolver returns is never empty, so the caller's
      `if not ver` never holds for it. */
  lemma ResolvedVersionNonEmpty(gh: GitHub, repo: string, rule: Option<string>, e: RegexEngine, truth: Truthiness)
    ensures GetTag(gh, repo, rule, e).Ok? ==> GetTag(gh, repo, rule, e).value.1 != ""
    ensures GetReleaseSpec(gh, repo, rule, e, truth).Ok? ==> GetReleaseSpec(gh, repo, rule, e, truth).value.1 != ""
  {
    if GetTag(gh, repo, rule, e).Ok? {
      TagVersionNonEmpty(gh, repo, rule, e);
    }
    if GetReleaseSpec(gh, repo, rule, e, truth).Ok? {
      if rule.None? || rule.value == "" {
        LatestVersionNonEmpty(gh, repo, rule, e, truth);
      } else {
        MatchedVersionNonEmpty(gh, repo, rule.value, e, truth);
      }
    }
  }

  lemma TagVersionNonEmpty(gh: GitHub, repo: string, rule: Option<string>, e: RegexEngine)
    requires GetTag(gh, repo, rule, e).Ok?
    ensures GetTag(gh, repo, rule, e).value.1 != ""
  {
    var tags := gh.repos[repo].tags;
    var t := MatchFn(rule, e).value;
    var pairs := TagVersions(tags, t, e).value;
    var b := MaxIndex(pairs, |pairs|);
    ParsedHasRelease(tags[b], Test(t, tags[b], e));
    RenderNonEmpty(pairs[b].1);
  }

  lemma LatestVersionNonEmpty(gh: GitHub, repo: string, rule: Option<string>, e: RegexEngine, truth: Truthiness)
    requires rule.None? || rule.value == ""
    requires GetReleaseSpec(gh, repo, rule, e, truth).Ok?
    ensures GetReleaseSpec(gh, repo, rule, e, truth).value.1 != ""
  {
    var rls := gh.repos[repo].latest.value;
    ParsedHasRelease(rls.tagName, Test(Truth, rls.tagName, e));
    RenderNonEmpty(ParseVersion(rls.tagName, Test(Truth, rls.tagName, e)).value);
  }

  lemma MatchedVersionNonEmpty(gh: GitHub, repo: string, rule: string, e: RegexEngine, truth: Truthiness)
    requires rule != ""
    requires GetReleaseSpec(gh, repo, Some(rule), e, truth).Ok?
    ensures GetReleaseSpec(gh, repo, Some(rule), e, truth).value.1 != ""
  {
    var t := InlineMatcher(rule, e).value;
    var rs := gh.repos[repo].releases;
    SelectFirst(rs, VersionOf(t, e), truth);
    var (rel, v) := Select(rs, VersionOf(t, e), truth).value.value;
    ParsedHasRelease(rel.tagName, Test(t, rel.tagName, e));
    RenderNonEmpty(v);
  }
}
